/** The older, untagged address types: serde writes them by position,
    `WholeList(lid)` as a bare number, `Singular(lid, sid)` as `[lid, sid]`,
    and a to-do address as a number, a pair or a triple whose middle slot
    may be `null`. Reading them back tries the variants in declaration
    order and keeps the first that fits, as `#[serde(untagged)]` does. */
module Addresses {
  import opened Base
  import opened Json
  import opened Entities

  datatype SetAddress =
    | WholeList(lid: ListId)
    | Singular(lid: ListId, sid: SetId)

  datatype ToDoAddress =
    | WholeList(lid: ListId)
    | WholeSet(lid: ListId, sid: SetId)
    | Singular(lid: ListId, maybeSid: Option<SetId>, tdid: ToDoId)

  /** `Option<i32>` on the wire: `null` or a number. */
  function EncodeOptionalId(o: Option<i32>): Json {
    match o
    case None => Null
    case Some(n) => Number(n)
  }

  function DecodeOptionalId(j: Json): (r: Option<Option<i32>>)
    ensures r.Some? <==> j.Null? || AsI32(j).Some?
  {
    if j.Null? then Some(None)
    else match AsI32(j)
      case Some(n) => Some(Some(n))
      case None => None
  }

  function EncodeSetAddress(a: SetAddress): Json {
    match a
    case WholeList(lid) => Number(lid)
    case Singular(lid, sid) => Array([Number(lid), Number(sid)])
  }

  /** The attempt serde makes for each variant. */
  function SetWholeListFrom(j: Json): Option<SetAddress> {
    match AsI32(j)
    case Some(lid) => Some(SetAddress.WholeList(lid))
    case None => None
  }

  function SetSingularFrom(j: Json): Option<SetAddress> {
    if j.Array? && |j.items| == 2 && AsI32(j.items[0]).Some? && AsI32(j.items[1]).Some?
    then Some(SetAddress.Singular(AsI32(j.items[0]).value, AsI32(j.items[1]).value))
    else None
  }

  function DecodeSetAddress(j: Json): Option<SetAddress> {
    match SetWholeListFrom(j)
    case Some(a) => Some(a)
    case None => SetSingularFrom(j)
  }

  function EncodeToDoAddress(a: ToDoAddress): Json {
    match a
    case WholeList(lid) => Number(lid)
    case WholeSet(lid, sid) => Array([Number(lid), Number(sid)])
    case Singular(lid, sid, tdid) => Array([Number(lid), EncodeOptionalId(sid), Number(tdid)])
  }

  function ToDoWholeListFrom(j: Json): Option<ToDoAddress> {
    match AsI32(j)
    case Some(lid) => Some(ToDoAddress.WholeList(lid))
    case None => None
  }

  function ToDoWholeSetFrom(j: Json): Option<ToDoAddress> {
    if j.Array? && |j.items| == 2 && AsI32(j.items[0]).Some? && AsI32(j.items[1]).Some?
    then Some(WholeSet(AsI32(j.items[0]).value, AsI32(j.items[1]).value))
    else None
  }

  function ToDoSingularFrom(j: Json): Option<ToDoAddress> {
    if j.Array? && |j.items| == 3 && AsI32(j.items[0]).Some?
       && DecodeOptionalId(j.items[1]).Some? && AsI32(j.items[2]).Some?
    then Some(ToDoAddress.Singular(AsI32(j.items[0]).value, DecodeOptionalId(j.items[1]).value,
                                   AsI32(j.items[2]).value))
    else None
  }

  function DecodeToDoAddress(j: Json): Option<ToDoAddress> {
    match ToDoWholeListFrom(j)
    case Some(a) => Some(a)
    case None =>
      match ToDoWholeSetFrom(j)
      case Some(a) => Some(a)
      case None => ToDoSingularFrom(j)
  }

  /** Decoding is a left inverse of encoding. */
  lemma SetAddressRoundTrip(a: SetAddress)
    ensures DecodeSetAddress(EncodeSetAddress(a)) == Some(a)
  {
  }

  lemma ToDoAddressRoundTrip(a: ToDoAddress)
    ensures DecodeToDoAddress(EncodeToDoAddress(a)) == Some(a)
  {
  }

  /** The variants have pairwise distinct shapes (number, 2-array,
      3-array): at most one variant accepts any JSON value, so the result
      does not depend on the order serde tries them in. */
  lemma SetAddressShapesDisjoint(j: Json)
    ensures !(SetWholeListFrom(j).Some? && SetSingularFrom(j).Some?)
  {
  }

  lemma ToDoAddressShapesDisjoint(j: Json)
    ensures !(ToDoWholeListFrom(j).Some? && ToDoWholeSetFrom(j).Some?)
    ensures !(ToDoWholeListFrom(j).Some? && ToDoSingularFrom(j).Some?)
    ensures !(ToDoWholeSetFrom(j).Some? && ToDoSingularFrom(j).Some?)
  {
  }

  /** A decoded address re-encodes to the same JSON: the encoding is
      canonical and the shape alone fixes the variant. */
  lemma {:induction false} SetAddressDecodeEncode(j: Json)
    requires DecodeSetAddress(j).Some?
    ensures EncodeSetAddress(DecodeSetAddress(j).value) == j
  {
    if SetSingularFrom(j).Some? && SetWholeListFrom(j).None? {
      assert j.items == [j.items[0], j.items[1]];
    }
  }

  lemma {:induction false} ToDoAddressDecodeEncode(j: Json)
    requires DecodeToDoAddress(j).Some?
    ensures EncodeToDoAddress(DecodeToDoAddress(j).value) == j
  {
    if ToDoWholeListFrom(j).None? {
      if ToDoWholeSetFrom(j).Some? {
        assert j.items == [j.items[0], j.items[1]];
      } else {
        assert j.items == [j.items[0], j.items[1], j.items[2]];
      }
    }
  }

  /** Only the singular to-do address has a nullable set id: `[lid, null]`
      is no to-do address, while `[lid, null, tdid]` is. */
  lemma NullSetIdOnlyInSingular(lid: ListId, tdid: ToDoId)
    ensures DecodeToDoAddress(Array([Number(lid), Null])) == None
    ensures DecodeToDoAddress(Array([Number(lid), Null, Number(tdid)]))
            == Some(ToDoAddress.Singular(lid, None, tdid))
  {
  }

  /** An id outside the `i32` range is refused in every slot of every
      shape, whatever the other slots hold. */
  lemma OutOfRangeIdRefused(n: int, x: Json, y: Json)
    requires !(-0x8000_0000 <= n < 0x8000_0000)
    ensures DecodeSetAddress(Number(n)) == None
    ensures DecodeSetAddress(Array([Number(n), x])) == None && DecodeSetAddress(Array([x, Number(n)])) == None
    ensures DecodeToDoAddress(Number(n)) == None
    ensures DecodeToDoAddress(Array([Number(n), x])) == None && DecodeToDoAddress(Array([x, Number(n)])) == None
    ensures DecodeToDoAddress(Array([Number(n), x, y])) == None
    ensures DecodeToDoAddress(Array([x, Number(n), y])) == None
    ensures DecodeToDoAddress(Array([x, y, Number(n)])) == None
  {
  }
}
