/**
 * The routing step of a chat turn in `chat_details`: detect the user's
 * language, hand the classifier an English text, and build the reply for the
 * language the user wrote in.
 */
module ChatTurn {
  import opened Wrappers
  import opened Language
  import opened IntentIds
  import opened TextNormalization
  import opened Intent
  import opened Responses

  /** Everything a turn computes before the two messages are stored. */
  datatype TurnResult = TurnResult(
    userLanguage: string,
    classifierInput: string,
    tag: string,
    outcome: Outcome,
    translations: seq<TranslateCall>)

  /** The text the classifier sees: a Swahili message is first translated to
      English, any other message is used as written. */
  function ClassifierInput(detect: string -> Detection, translate: (string, string, string) -> string,
                           message: string): string
  {
    if DetectLanguage(detect, message) == Swahili then translate(message, Swahili, English) else message
  }

  /** The intent tag of a turn. */
  function TurnTag(detect: string -> Detection, translate: (string, string, string) -> string,
                   classify: string -> nat, mapping: map<string, string>, message: string): string
  {
    DetectIntent(classify, mapping, ClassifierInput(detect, translate, message))
  }

  /** One turn, as a function of the message and the external pieces. */
  function Turn(message: string, detect: string -> Detection, translate: (string, string, string) -> string,
                classify: string -> nat, mapping: map<string, string>, data: IntentsData, choice: nat): (t: TurnResult)
    requires ChoiceFits(Intents(data), TurnTag(detect, translate, classify, mapping, message), choice)
    ensures t.userLanguage == Swahili || t.userLanguage == English
    ensures t.userLanguage == DetectLanguage(detect, message)
    ensures t.userLanguage == Swahili ==> t.classifierInput == translate(message, Swahili, English)
    ensures t.userLanguage == English ==> t.classifierInput == message
    ensures t.tag == DetectIntent(classify, mapping, t.classifierInput)
    ensures t.tag == TurnTag(detect, translate, classify, mapping, message)
    ensures t.outcome == Respond(data, t.tag, t.userLanguage, choice, detect, translate)
    ensures t.translations ==
              (if t.userLanguage == Swahili then [TranslateCall(message, Swahili, English)] else [])
              + t.outcome.translations
  {
    var userLanguage := DetectLanguage(detect, message);
    var input := ClassifierInput(detect, translate, message);
    var tag := DetectIntent(classify, mapping, input);
    var outcome := Respond(data, tag, userLanguage, choice, detect, translate);
    var asked := if userLanguage == Swahili then [TranslateCall(message, Swahili, English)] else [];
    TurnResult(userLanguage, input, tag, outcome, asked + outcome.translations)
  }

  /** What a turn sends to the translator: at most two calls, at most one for
      an English message, and every translation of the reply goes into the
      user's language. The tag is "unknown" or one of the table's tags. */
  lemma TurnTranslations(message: string, detect: string -> Detection, translate: (string, string, string) -> string,
                         classify: string -> nat, mapping: map<string, string>, data: IntentsData, choice: nat)
    requires ChoiceFits(Intents(data), TurnTag(detect, translate, classify, mapping, message), choice)
    ensures var t := Turn(message, detect, translate, classify, mapping, data, choice);
      && (t.tag == Unknown || t.tag in mapping.Values)
      && |t.translations| <= 2
      && (t.userLanguage == English ==> |t.translations| <= 1)
      && (forall j :: 0 <= j < |t.outcome.translations| ==> t.outcome.translations[j].tgt == t.userLanguage)
  {
    var t := Turn(message, detect, translate, classify, mapping, data, choice);
    var asked := if t.userLanguage == Swahili then [TranslateCall(message, Swahili, English)] else [];
    var o := Respond(data, t.tag, t.userLanguage, choice, detect, translate);
    assert t.translations == asked + o.translations;
    assert |asked| <= 1 && |o.translations| <= 1;
  }

  /** The routing of `chat_details` on a posted message, up to the point where
      the user's message and the reply are stored. */
  method HandleMessage(message: string, detect: string -> Detection, translate: (string, string, string) -> string,
                       classify: string -> nat, mapping: map<string, string>, data: IntentsData, choice: nat)
    returns (t: TurnResult)
    requires ChoiceFits(Intents(data), TurnTag(detect, translate, classify, mapping, message), choice)
    ensures t == Turn(message, detect, translate, classify, mapping, data, choice)
  {
    var userLanguage := DetectLanguage(detect, message);
    var forIntent: string;
    var asked: seq<TranslateCall>;
    if userLanguage == Swahili {
      forIntent := translate(message, Swahili, English);
      asked := [TranslateCall(message, Swahili, English)];
    } else {
      forIntent := message;
      asked := [];
    }
    var tag := DetectIntent(classify, mapping, forIntent);
    var outcome := GetResponse(data, tag, userLanguage, choice, detect, translate);
    t := TurnResult(userLanguage, forIntent, tag, outcome, asked + outcome.translations);
  }

  /** A class id missing from the id-to-tag table, with no catalog entry
      tagged "unknown", ends in the fixed fallback reply in the user's own
      language; the only translation made is the one of a Swahili message for
      the classifier. */
  lemma UnmappedIdFallsBack(message: string, detect: string -> Detection, translate: (string, string, string) -> string,
                            classify: string -> nat, mapping: map<string, string>, data: IntentsData, choice: nat)
    requires Decimal(classify(Normalize(ClassifierInput(detect, translate, message)))) !in mapping
    requires forall j :: 0 <= j < |Intents(data)| ==> Intents(data)[j].tag != Unknown
    ensures ChoiceFits(Intents(data), TurnTag(detect, translate, classify, mapping, message), choice)
    ensures var t := Turn(message, detect, translate, classify, mapping, data, choice);
      && t.outcome.reply == Success(if DetectLanguage(detect, message) == Swahili then SwahiliFallback else EnglishFallback)
      && t.outcome.translations == []
  {
    assert TurnTag(detect, translate, classify, mapping, message) == Unknown;
  }
}
