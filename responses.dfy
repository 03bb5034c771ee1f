/**
 * Response selection of `get_response`: find the first catalog entry whose
 * tag matches, pick one of its replies, and translate the pick only when its
 * own language differs from the user's.
 */
module Responses {
  import opened Wrappers
  import opened Language

  /** One record of the intent catalog. */
  datatype Intent = Intent(tag: string, responses: seq<string>)

  /** The loaded catalog file: a JSON object whose "intents" key holds the
      list of records. */
  type IntentsData = map<string, seq<Intent>>

  /** One call of the translator: the text and the source and target codes. */
  datatype TranslateCall = TranslateCall(text: string, src: string, tgt: string)

  /** `random.choice` on an empty reply list raises IndexError. */
  datatype ResponseError = EmptyResponses

  /** The reply, or the error that escapes, together with the translator calls
      made on the way, in order. */
  datatype Outcome = Outcome(reply: Result<string, ResponseError>, translations: seq<TranslateCall>)

  const SwahiliFallback: string := "Samahani, siwezi kuelewa hiyo."
  const EnglishFallback: string := "Sorry, I don't understand that."

  /** `intents_data.get('intents', [])`. */
  function Intents(data: IntentsData): seq<Intent> {
    if "intents" in data then data["intents"] else []
  }

  /** The fixed reply when no entry matches, in the user's language; any code
      other than Swahili gets the English text. */
  function Fallback(userLanguage: string): string {
    if userLanguage == Swahili then SwahiliFallback else EnglishFallback
  }

  /** Position of the first entry tagged `tag`, if any. */
  function FirstMatch(intents: seq<Intent>, tag: string): (k: Option<nat>)
    ensures k.Some? ==> k.value < |intents| && intents[k.value].tag == tag
    ensures k.Some? ==> forall j :: 0 <= j < k.value ==> intents[j].tag != tag
    ensures k.None? <==> forall j :: 0 <= j < |intents| ==> intents[j].tag != tag
  {
    if |intents| == 0 then None
    else if intents[0].tag == tag then Some(0)
    else match FirstMatch(intents[1..], tag)
      case None => None
      case Some(j) => Some(j + 1)
  }

  /** The language a translation into `userLanguage` starts from. */
  function OtherLanguage(userLanguage: string): string {
    if userLanguage == Swahili then English else Swahili
  }

  /** The random pick: index `choice` is in range whenever the first matching
      entry has replies to choose from. */
  predicate ChoiceFits(intents: seq<Intent>, tag: string, choice: nat) {
    match FirstMatch(intents, tag)
    case None => true
    case Some(k) => |intents[k].responses| == 0 || choice < |intents[k].responses|
  }

  /** What happens once an entry matched: pick reply `choice`, and translate it
      into the user's language when its own language differs. At most one
      translation is made, always into the user's language from the other
      one, and an untranslated reply is the pick itself. */
  function Answer(responses: seq<string>, choice: nat, userLanguage: string,
                  detect: string -> Detection, translate: (string, string, string) -> string): (o: Outcome)
    requires |responses| == 0 || choice < |responses|
    ensures o.reply.Failure? <==> |responses| == 0
    ensures o.reply.Failure? ==> o.translations == []
    ensures |o.translations| <= 1
    ensures o.reply.Success? ==>
      (o.translations != [] <==>
         (userLanguage == Swahili || userLanguage == English)
         && DetectLanguage(detect, responses[choice]) != userLanguage)
    ensures o.reply.Success? && o.translations == [] ==>
      o.reply.value == responses[choice] && o.reply.value in responses
    ensures o.translations != [] ==>
      var call := o.translations[0];
      && call == TranslateCall(responses[choice], OtherLanguage(userLanguage), userLanguage)
      && call.src != call.tgt
      && o.reply == Success(translate(call.text, call.src, call.tgt))
  {
    if |responses| == 0 then Outcome(Failure(EmptyResponses), [])
    else
      var response := responses[choice];
      if userLanguage == Swahili && DetectLanguage(detect, response) != Swahili then
        Outcome(Success(translate(response, English, Swahili)), [TranslateCall(response, English, Swahili)])
      else if userLanguage == English && DetectLanguage(detect, response) != English then
        Outcome(Success(translate(response, Swahili, English)), [TranslateCall(response, Swahili, English)])
      else
        Outcome(Success(response), [])
  }

  /** `get_response` as a function of the catalog, the tag, the user's
      language and the pick. Without a matching entry the reply is the
      untranslated fallback; with one, it comes from the first matching
      entry's replies, translated at most once. */
  function Respond(data: IntentsData, tag: string, userLanguage: string, choice: nat,
                   detect: string -> Detection, translate: (string, string, string) -> string): (o: Outcome)
    requires ChoiceFits(Intents(data), tag, choice)
    ensures |o.translations| <= 1
    ensures FirstMatch(Intents(data), tag).None? ==> o == Outcome(Success(Fallback(userLanguage)), [])
    ensures FirstMatch(Intents(data), tag).Some? ==>
      var responses := Intents(data)[FirstMatch(Intents(data), tag).value].responses;
      && (o.reply.Failure? <==> |responses| == 0)
      && (o.reply.Success? && o.translations == [] ==> o.reply.value in responses)
      && (o.translations != [] ==>
            o.translations[0].text in responses
            && o.translations[0].tgt == userLanguage
            && o.reply == Success(translate(o.translations[0].text, o.translations[0].src, userLanguage)))
  {
    match FirstMatch(Intents(data), tag)
    case None => Outcome(Success(Fallback(userLanguage)), [])
    case Some(k) => Answer(Intents(data)[k].responses, choice, userLanguage, detect, translate)
  }

  /** The first matching position is determined by the tags alone. */
  lemma FirstMatchAt(intents: seq<Intent>, tag: string, k: nat)
    requires k < |intents| && intents[k].tag == tag
    requires forall j :: 0 <= j < k ==> intents[j].tag != tag
    ensures FirstMatch(intents, tag) == Some(k)
  {
    var m := FirstMatch(intents, tag);
    assert m.Some?;
    assert !(m.value < k) && !(k < m.value);
  }

  /** Searching a catalog made of two parts: a match in the first part wins,
      and the second part is searched only when the first has none. */
  lemma FirstMatchAppend(xs: seq<Intent>, ys: seq<Intent>, tag: string)
    ensures FirstMatch(xs + ys, tag) ==
      match FirstMatch(xs, tag)
      case Some(k) => Some(k)
      case None => match FirstMatch(ys, tag) { case None => None case Some(j) => Some(|xs| + j) }
  {
    var s := xs + ys;
    match FirstMatch(xs, tag)
    case Some(k) =>
      assert s[k] == xs[k];
      assert forall j :: 0 <= j < k ==> s[j] == xs[j];
      FirstMatchAt(s, tag, k);
    case None =>
      assert forall j :: 0 <= j < |xs| ==> s[j] == xs[j];
      match FirstMatch(ys, tag)
      case None =>
        assert forall j :: |xs| <= j < |s| ==> s[j] == ys[j - |xs|];
      case Some(m) =>
        assert s[|xs| + m] == ys[m];
        assert forall j :: |xs| <= j < |xs| + m ==> s[j] == ys[j - |xs|];
        FirstMatchAt(s, tag, |xs| + m);
  }

  /** Entries listed after a matching one are never consulted: when several
      entries share a tag, only the first in list order is used. */
  lemma LaterEntriesIgnored(xs: seq<Intent>, ys: seq<Intent>, tag: string, userLanguage: string, choice: nat,
                            detect: string -> Detection, translate: (string, string, string) -> string)
    requires FirstMatch(xs, tag).Some?
    requires ChoiceFits(xs, tag, choice)
    ensures ChoiceFits(xs + ys, tag, choice)
    ensures Respond(map["intents" := xs + ys], tag, userLanguage, choice, detect, translate)
         == Respond(map["intents" := xs], tag, userLanguage, choice, detect, translate)
  {
    FirstMatchAppend(xs, ys, tag);
    assert (xs + ys)[FirstMatch(xs, tag).value] == xs[FirstMatch(xs, tag).value];
  }

  /** Entries with other tags placed before the match do not change the
      reply. */
  lemma EarlierOtherTagsIgnored(xs: seq<Intent>, ys: seq<Intent>, tag: string, userLanguage: string, choice: nat,
                                detect: string -> Detection, translate: (string, string, string) -> string)
    requires forall j :: 0 <= j < |xs| ==> xs[j].tag != tag
    requires ChoiceFits(ys, tag, choice)
    ensures ChoiceFits(xs + ys, tag, choice)
    ensures Respond(map["intents" := xs + ys], tag, userLanguage, choice, detect, translate)
         == Respond(map["intents" := ys], tag, userLanguage, choice, detect, translate)
  {
    FirstMatchAppend(xs, ys, tag);
    if FirstMatch(ys, tag).Some? {
      assert (xs + ys)[|xs| + FirstMatch(ys, tag).value] == ys[FirstMatch(ys, tag).value];
    }
  }

  /** `get_response`: a linear search that returns on the first entry whose tag
      matches. */
  method GetResponse(data: IntentsData, tag: string, userLanguage: string, choice: nat,
                     detect: string -> Detection, translate: (string, string, string) -> string)
    returns (o: Outcome)
    requires ChoiceFits(Intents(data), tag, choice)
    ensures o == Respond(data, tag, userLanguage, choice, detect, translate)
  {
    var intents := Intents(data);
    var k := 0;
    while k < |intents|
      invariant 0 <= k <= |intents|
      invariant forall j :: 0 <= j < k ==> intents[j].tag != tag
    {
      if intents[k].tag == tag {
        var responses := intents[k].responses;
        if |responses| == 0 {
          return Outcome(Failure(EmptyResponses), []);
        }
        var response := responses[choice];
        if userLanguage == Swahili && DetectLanguage(detect, response) != Swahili {
          return Outcome(Success(translate(response, English, Swahili)), [TranslateCall(response, English, Swahili)]);
        } else if userLanguage == English && DetectLanguage(detect, response) != English {
          return Outcome(Success(translate(response, Swahili, English)), [TranslateCall(response, Swahili, English)]);
        }
        return Outcome(Success(response), []);
      }
      k := k + 1;
    }
    return Outcome(Success(Fallback(userLanguage)), []);
  }
}
