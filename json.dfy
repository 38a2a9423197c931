/** A small JSON value type: enough to write the request and response
    shapes of the service (numbers are integers only). */
module Json {
  import opened Base

  datatype Json =
    | Null
    | Bool(b: bool)
    | Number(n: int)
    | Str(s: string)
    | Array(items: seq<Json>)
    | Object(members: seq<(string, Json)>)

  /** The value of the first member named `key`. */
  function Lookup(members: seq<(string, Json)>, key: string): (r: Option<Json>)
    ensures r.Some? ==> exists i | 0 <= i < |members| :: members[i] == (key, r.value)
    ensures r.None? ==> forall i | 0 <= i < |members| :: members[i].0 != key
  {
    if members == [] then None
    else if members[0].0 == key then Some(members[0].1)
    else
      var r := Lookup(members[1..], key);
      assert r.Some? ==> exists i | 0 <= i < |members| - 1 :: members[1..][i] == (key, r.value);
      r
  }

  /** How many members are named `key`. */
  function Occurrences(members: seq<(string, Json)>, key: string): (n: nat)
    ensures n == 0 <==> Lookup(members, key).None?
    ensures n <= |members|
  {
    if members == [] then 0
    else Occurrences(members[1..], key) + (if members[0].0 == key then 1 else 0)
  }

  /** A JSON number that fits an `i32`, as serde reads one. */
  function AsI32(j: Json): (r: Option<i32>)
    ensures r.Some? <==> j.Number? && -0x8000_0000 <= j.n < 0x8000_0000
    ensures r.Some? ==> j == Number(r.value)
  {
    if j.Number? && -0x8000_0000 <= j.n < 0x8000_0000 then Some(j.n) else None
  }
}
