/** JavaScript data as the system stores it in contexts and payloads. `Undefined` is an absent
    value or a hole in a sparse array; `named` are the non-index properties of an array, which
    serialisation drops. */
module Json {
  import opened Basics
  import opened Text

  datatype Json =
    | Undefined
    | Null
    | Bool(b: bool)
    | Num(n: int)
    | Str(s: string)
    | Arr(items: seq<Json>, named: map<string, Json>)
    | Obj(fields: map<string, Json>)

  type Record = map<string, Json>

  /** `asRecord(value) ?? {}` for a column that holds an object or NULL. */
  function RecordOrEmpty(r: Option<Record>): Record {
    if r.Some? then r.value else map[]
  }

  /** Does one payload entry count as content? */
  predicate HasContent(v: Json) {
    match v
    case Undefined => false
    case Null => false
    case Str(s) => exists i :: 0 <= i < |s| && !IsSpace(s[i])
    case Arr(items, _) => |items| > 0
    case Obj(fields) => |fields| > 0
    case Bool(_) => true
    case Num(_) => true
  }

  predicate PayloadHasContent(payload: Record) {
    exists k :: k in payload && HasContent(payload[k])
  }

  /** `Number(v) || 0`: the numeric reading of a context entry, 0 where that is NaN. */
  function NumberOrZero(v: Json): int {
    match v
    case Num(n) => n
    case Bool(b) => if b then 1 else 0
    case Str(s) => if AllDigits(s) then DigitsToNat(s) else 0
    case _ => 0
  }

  function EntryNumber(r: Record, key: string): int {
    if key in r then NumberOrZero(r[key]) else 0
  }

  /** A numeral, a number and a boolean are read as numbers; everything else counts as 0, and so
      does an entry that is not there. */
  lemma NumberReading(r: Record, key: string, n: nat)
    ensures key !in r ==> EntryNumber(r, key) == 0
    ensures key in r && r[key].Num? ==> EntryNumber(r, key) == r[key].n
    ensures key in r && r[key] == Bool(true) ==> EntryNumber(r, key) == 1
    ensures key in r && r[key] == Str(DecimalNat(n)) ==> EntryNumber(r, key) == n
    ensures key in r && r[key].Str? && (exists i :: 0 <= i < |r[key].s| && !('0' <= r[key].s[i] <= '9')) ==> EntryNumber(r, key) == 0
    ensures key in r && !r[key].Num? && !r[key].Str? && r[key] != Bool(true) ==> EntryNumber(r, key) == 0
  {
    DecimalReadsBack(n);
  }
}
