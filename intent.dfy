/**
 * Intent tag lookup of `detect_intent`: the message is normalised, the
 * classifier picks a class id, and the id-to-tag table names the intent.
 */
module Intent {
  import opened Wrappers
  import opened TextNormalization
  import opened IntentIds

  /** Tag returned when the class id has no entry in the table. */
  const Unknown: string := "unknown"

  /** `intent_mapping.get(str(id), "unknown")`. */
  function TagOf(mapping: map<string, string>, id: nat): (tag: string)
    ensures Decimal(id) in mapping ==> tag == mapping[Decimal(id)]
    ensures Decimal(id) !in mapping ==> tag == Unknown
  {
    if Decimal(id) in mapping then mapping[Decimal(id)] else Unknown
  }

  /** `detect_intent`: `classify` stands for tokenising, the forward pass and
      the argmax over the logits, and yields the winning class id. */
  function DetectIntent(classify: string -> nat, mapping: map<string, string>, text: string): (tag: string)
    ensures tag == Unknown || tag in mapping.Values
  {
    TagOf(mapping, classify(Normalize(text)))
  }

  /** A key of the table is consulted for exactly one class id: the id it reads
      back as. A key that does not read back as an id ("07", " 3", "x") is never
      consulted, so removing it changes no lookup. */
  lemma {:induction false} KeyConsultedOnlyForItsId(mapping: map<string, string>, key: string, id: nat)
    requires key in mapping
    ensures Decimal(id) == key <==> Parse(key) == Some(id)
    ensures Parse(key).None? ==> TagOf(mapping, id) == TagOf(mapping - {key}, id)
  {
    if Parse(key).Some? {
      DecimalOfParse(key);
    }
  }

  /** Classifying an already normalised message gives the same tag. */
  lemma DetectIntentOfNormalized(classify: string -> nat, mapping: map<string, string>, text: string)
    ensures DetectIntent(classify, mapping, Normalize(text)) == DetectIntent(classify, mapping, text)
  {
    NormalizeIdempotent(text);
  }
}
