/**
 JSON values as the dashboard receives them. A record is the list of its entries in `Object.entries` order; a number
 is carried as the text JavaScript prints for it.
 */
module Json {
  import opened Wrappers
  import opened Text

  datatype Json =
    | Null
    | Bool(b: bool)
    | Num(text: string)
    | Str(s: string)
    | Arr(items: seq<Json>)
    | Obj(fields: seq<Field>)

  datatype Field = Field(key: string, value: Json)

  type Record = seq<Field>

  function Keys(record: Record): (keys: seq<string>)
    ensures |keys| == |record| && forall i | 0 <= i < |record| :: keys[i] == record[i].key
  {
    seq(|record|, i requires 0 <= i < |record| => record[i].key)
  }

  /** `record[key]`, absent when the key is. */
  function Lookup(record: Record, key: string): Option<Json> {
    if record == [] then None
    else if record[0].key == key then Some(record[0].value)
    else Lookup(record[1..], key)
  }

  /** The value of the first of the keys that is present. */
  function Pick(record: Record, keys: seq<string>): Option<Json> {
    if keys == [] then None
    else
      var v := Lookup(record, keys[0]);
      if v.Some? then v else Pick(record, keys[1..])
  }

  predicate DistinctKeys(record: Record) {
    forall i, j | 0 <= i < j < |record| :: record[i].key != record[j].key
  }

  lemma {:induction false} LookupAt(record: Record, i: nat)
    requires i < |record| && DistinctKeys(record)
    ensures Lookup(record, record[i].key) == Some(record[i].value)
  {
    if i > 0 {
      assert record[0].key != record[i].key;
      LookupAt(record[1..], i - 1);
    }
  }

  lemma {:induction false} LookupAbsent(record: Record, key: string)
    requires forall i | 0 <= i < |record| :: record[i].key != key
    ensures Lookup(record, key) == None
  {
    if record != [] { LookupAbsent(record[1..], key); }
  }

  /** The records of a payload: `isRecord(v) ? v : {}`, arrays excluded. */
  function AsRecord(v: Json): Record {
    if v.Obj? then v.fields else []
  }

  /** `str(v)`: a string with something in it, unchanged. */
  function TextOf(v: Option<Json>): Option<string> {
    if v.Some? && v.value.Str? && Trim(v.value.s) != "" then Some(v.value.s) else None
  }

  /** `String(v)` for a JSON value. */
  function JsString(v: Json): string
    decreases v
  {
    match v
    case Null => "null"
    case Bool(b) => if b then "true" else "false"
    case Num(text) => text
    case Str(s) => s
    case Arr(items) => JoinItems(items)
    case Obj(_) => "[object Object]"
  }

  /** `items.join(",")`, where null items print as nothing. */
  function JoinItems(items: seq<Json>): string
    decreases items
  {
    if items == [] then ""
    else
      var n := |items| - 1;
      var last := if items[n].Null? then "" else JsString(items[n]);
      if n == 0 then last else JoinItems(items[..n]) + "," + last
  }

  /** `String(v ?? "")`. */
  function JsStringOr(v: Option<Json>): string {
    if v.None? || v.value.Null? then "" else JsString(v.value)
  }

  function OrNull(o: Option<string>): Json {
    if o.Some? then Str(o.value) else Null
  }
}
