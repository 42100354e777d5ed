/** The validity predicate for object bindings. */
module CompletionRule {
  import opened Basics
  import opened Json
  import opened Tables

  function Rank(status: ObjectStatus): int {
    match status
    case Draft => 1
    case Published => 2
    case Archived => 3
  }

  /** The alias table; unknown keys fall back to DRAFT. */
  function MinStatus(key: string): ObjectStatus {
    if key == "submitted" || key == "published" || key == "PUBLISHED" then Published
    else if key == "archived" || key == "ARCHIVED" then Archived
    else Draft
  }

  function RuleType(rule: Option<Rule>): string {
    if rule.Some? && rule.value.type_.Some? then rule.value.type_.value else "payload_valid"
  }

  function RuleMinimum(rule: Option<Rule>): ObjectStatus {
    MinStatus(if rule.Some? && rule.value.minStatus.Some? then rule.value.minStatus.value else "DRAFT")
  }

  predicate Satisfies(rule: Option<Rule>, payload: Record, status: ObjectStatus) {
    && RuleType(rule) == "payload_valid"
    && Rank(status) >= Rank(RuleMinimum(rule))
    && PayloadHasContent(payload)
  }

  // ----- the rule, read off its entries -----

  /** The status is high enough for the named minimum; other names, and none, ask for nothing. */
  predicate HighEnough(minimum: Option<string>, status: ObjectStatus) {
    match minimum
    case None => true
    case Some(name) =>
      && (name == "submitted" || name == "published" || name == "PUBLISHED" ==> status != Draft)
      && (name == "archived" || name == "ARCHIVED" ==> status == Archived)
  }

  /** A number, a boolean, a text with a character other than white space, or a list or object
      that is not empty. */
  predicate Substantial(v: Json) {
    || v.Num? || v.Bool?
    || (v.Str? && exists i :: 0 <= i < |v.s| && v.s[i] != ' ' && v.s[i] != '\t' && v.s[i] != '\n' && v.s[i] != '\r')
    || (v.Arr? && v.items != [])
    || (v.Obj? && v.fields != map[])
  }

  lemma SatisfiesIff(rule: Option<Rule>, payload: Record, status: ObjectStatus)
    ensures Satisfies(rule, payload, status) <==>
      && (rule.Some? && rule.value.type_.Some? ==> rule.value.type_.value == "payload_valid")
      && (rule.Some? ==> HighEnough(rule.value.minStatus, status))
      && exists k :: k in payload && Substantial(payload[k])
  {
    forall k | k in payload ensures HasContent(payload[k]) == Substantial(payload[k]) {
      ContentIff(payload[k]);
    }
  }

  lemma ContentIff(v: Json)
    ensures HasContent(v) == Substantial(v)
  {
    if v.Obj? && |v.fields| > 0 {
      var k :| k in v.fields.Keys;
      assert k in v.fields;
    }
  }
}
