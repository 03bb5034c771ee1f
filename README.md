# Anxiety-support chat bot: language routing and response selection

This project models the conversational core of a Flask chat bot
(`apps/app.py`): how a raw language-detector verdict becomes one of the two
languages the bot speaks, how the classifier's winning class id becomes an
intent tag, how a reply is chosen from the intent catalog and translated only
when needed, and how one chat turn routes a message through these steps.

The machine-learning pieces are parameters of the model, not code in it:

- the language detector is `detect: string -> Detection`, which returns a
  language code or a failure (the detector raises on text it cannot classify);
- the translator is `translate: (string, string, string) -> string`, applied to
  the text, the source code and the target code;
- the intent classifier (tokeniser, forward pass and argmax) is
  `classify: string -> nat`, which gives the winning class id for a text;
- `random.choice` is an index `choice` into the reply list. The caller must
  supply an index in range, as `random.choice` always does (`ChoiceFits`).

Modules, one per component:

- `Wrappers`: `Option` and `Result`.
- `Language`: `detect_language`.
- `TextNormalization`: the `text.lower().strip()` step of `detect_intent`.
- `IntentIds`: `str(id)`, the decimal key under which a class id is looked up.
- `Intent`: `detect_intent`.
- `Responses`: the intent catalog, `get_response` as the spec function
  `Respond`, and the search loop `GetResponse` proved against it. Every
  translator call is recorded in `Outcome.translations`. This is how
  "at most one translation, in the right direction" is stated.
- `ChatTurn`: the routing lines of `chat_details` for a posted message, as
  the spec function `Turn` and the method `HandleMessage`.

The catalog is the loaded JSON object, a `map<string, seq<Intent>>`. Its
`"intents"` key holds the records, and a missing key reads as an empty list,
as `intents_data.get('intents', [])` does. A reply list that is empty makes
`random.choice` raise IndexError. Nothing in the turn catches that error, so
the model returns `Failure(EmptyResponses)` for it.

## Model

| member | source | states |
|---|---|---|
| `Language.DetectLanguage` | apps/app.py:81-89 | The result is always "sw" or "en". It is "sw" exactly when detection succeeded with one of "sw", "sw-tz", "sw-ke". A failed detection gives "en" and no error escapes. |
| `TextNormalization.LowerChar` | apps/app.py:94 | An ASCII capital becomes its own lowercase letter, and any other character is kept. The result is never an ASCII capital and is whitespace exactly when the input was. |
| `TextNormalization.Lower` | apps/app.py:94 | Lowering keeps the length and lowers each character on its own. |
| `TextNormalization.StripStart` | apps/app.py:94 | The result is a suffix of the input. Everything dropped is whitespace, and a non-empty result does not start with whitespace. |
| `TextNormalization.StripEnd` | apps/app.py:94 | The result is a prefix of the input. Everything dropped is whitespace, and a non-empty result does not end with whitespace. |
| `TextNormalization.Strip` | apps/app.py:94 | The result is a slice of the input. Everything before and after it is whitespace, and a non-empty result neither starts nor ends with whitespace. |
| `TextNormalization.StripEmpty` | apps/app.py:94 | Stripping gives the empty text exactly when the input is all whitespace. |
| `TextNormalization.StripIdempotent` | apps/app.py:94 | Stripping twice is the same as stripping once. |
| `TextNormalization.LowerPrefix` | apps/app.py:94 | Lowering a prefix gives the same prefix of the lowered text. |
| `TextNormalization.LowerStripStart` | apps/app.py:94 | Left-stripping and lowering commute, because lowering keeps every whitespace character where it is. |
| `TextNormalization.LowerStripEnd` | apps/app.py:94 | Right-stripping and lowering commute. |
| `TextNormalization.Normalize` | apps/app.py:94 | `text.lower().strip()` equals stripping first and lowering what is left. So the result is the text's stripped slice, described by `Strip`, with each character lowered. |
| `TextNormalization.LowerKeepsEnds` | apps/app.py:94 | A lowered text has no ASCII capitals. Its first and last characters are whitespace exactly when the input's are. |
| `TextNormalization.LowerOfLowered` | apps/app.py:94 | Lowering a text with no ASCII capitals changes nothing. |
| `TextNormalization.NormalizeShape` | apps/app.py:94 | The normalised text is no longer than the input. It has no ASCII capitals and no whitespace at either end. |
| `TextNormalization.NormalizeIdempotent` | apps/app.py:94 | Normalising a normalised text changes nothing. |
| `TextNormalization.NormalizeIgnoresLeadingSpace` | apps/app.py:94 | A leading whitespace character does not change the normalised text. |
| `IntentIds.Decimal` | apps/app.py:97 | The decimal key of a class id is canonical (digits only, no leading zero) and parses back to that id. |
| `IntentIds.DecimalOfParse` | apps/app.py:97 | Every key that parses as an id is exactly that id's decimal text, so `str` and parsing are inverse. |
| `IntentIds.DecimalInjective` | apps/app.py:97 | Distinct class ids look up distinct keys. |
| `Intent.TagOf` | apps/app.py:97-98 | The tag is the table's entry for the id's decimal key when that key is present, and "unknown" otherwise. |
| `Intent.DetectIntent` | apps/app.py:93-99 | The tag of a message is "unknown" or one of the table's tags. |
| `Intent.KeyConsultedOnlyForItsId` | apps/app.py:97-98 | A table key is consulted for an id exactly when it parses as that id. A key that does not parse ("07", " 3") is never consulted, so removing it changes no lookup. |
| `Intent.DetectIntentOfNormalized` | apps/app.py:94-98 | Classifying an already normalised message gives the same tag as the raw message. |
| `Responses.FirstMatch` | apps/app.py:108-109 | The position found holds the tag and no earlier entry does. None is returned exactly when no entry holds the tag. |
| `Responses.FirstMatchAt` | apps/app.py:108-109 | The first matching position is fixed by the tags alone. |
| `Responses.FirstMatchAppend` | apps/app.py:108-109 | In a catalog of two parts, a match in the first part wins. The second part is searched only when the first part has no match. |
| `Responses.Answer` | apps/app.py:110-116 | An empty reply list is the only failure. At most one translation is made. A translation happens exactly when the user's language is "sw" or "en" and the pick is detected in a different language. It goes from the other language into the user's language and the reply is its output. An untranslated reply is the pick itself, so it is a member of the entry's replies. |
| `Responses.Respond` | apps/app.py:102-117 | The catalog's records are read as `intents_data.get('intents', [])` does (`Intents`, line 108). With no matching entry, the reply is the fixed fallback in the user's language (`Fallback`, line 117) and no translation is made. With a match, the reply comes from the first matching entry's replies, either as is or translated once into the user's language. It fails exactly when that list is empty. |
| `Responses.GetResponse` | apps/app.py:108-117 | The search loop returns on the first matching entry. Its outcome is exactly `Respond`'s. |
| `Responses.LaterEntriesIgnored` | apps/app.py:108-116 | When several entries share a tag, entries after the first match never affect the reply. |
| `Responses.EarlierOtherTagsIgnored` | apps/app.py:108-116 | Entries with other tags placed before the match do not affect the reply. |
| `ChatTurn.Turn` | apps/app.py:217-228 | The user's language is the message's detected language, "sw" or "en". The classifier sees the sw-to-en translation of the message when that language is "sw", and the message itself otherwise (`ClassifierInput`, lines 222-225). The tag is `detect_intent` of that text (`TurnTag`). The reply is `Respond` for that tag in the original detected language, not in the translated text's language. The turn's translator calls are the classifier translation, if any, followed by the reply's. |
| `ChatTurn.TurnTranslations` | apps/app.py:217-228 | A turn's tag is "unknown" or one of the table's tags. A turn makes at most two translations, and at most one for an English message. Every reply translation targets the user's language. |
| `ChatTurn.HandleMessage` | apps/app.py:217-228 | The step-by-step routing computes exactly `Turn`. |
| `ChatTurn.UnmappedIdFallsBack` | apps/app.py:227-228 | If the class id has no entry in the table and no catalog entry is tagged "unknown", the reply is the fixed fallback in the user's language and no reply translation is made. |

## Left out

- Flask routes, redirects, flash messages, template rendering and the session (apps/app.py:121-271): web plumbing with no logic beyond the routing modelled in `ChatTurn`.
- All SQLite work (`init_db`, the login and registration queries, chat listing, `new_chat`, the two message inserts and the re-read of the chat): I/O against a database the model cannot see. The two inserts are not atomic in the source, and that is not modelled either.
- Password hashing and checking: calls into werkzeug.
- `translate` (apps/app.py:71-78), tokenisation, the classifier's forward pass and the argmax over float logits: model inference and floating point. They are the function parameters `translate` and `classify`.
- The language detector itself: only its verdict is modelled, as `Detection`, and the model treats the detector as one fixed function.
- Detector non-determinism: langdetect is not seeded, so it can give different verdicts for the same text on different calls. A turn can detect the same text twice: once for the user's message (apps/app.py:219) and once for the picked reply (apps/app.py:112/114), when the reply is identical to the message. The model gives both calls the same verdict. So it cannot produce a turn in which the message reads as "sw" and the identical reply reads as "en" and is then translated from en to sw.
- The console print in the detection error path: I/O.
- `random.choice`: replaced by the caller-supplied index `choice`.
- Loading the models and the JSON files at startup (apps/app.py:16-33): startup I/O. The catalog and the id-to-tag table are parameters, already loaded.
- The list-shaped catalog branch (apps/app.py:103-106): its result is never used. Line 108 calls `.get` on the catalog, so a list catalog would raise; only the object-shaped catalog is modelled.
- Catalog records without a "tag" or "responses" key raise KeyError in the source. The model's `Intent` record always has both fields.
- `TextNormalization.Lower`: lowers only ASCII capitals. Python's `str.lower` also lowers other scripts and can change the length of a string. Those cases need Unicode tables that are not part of this model.
