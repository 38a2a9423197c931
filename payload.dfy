/** What both revisions of the body classifier share: its three-way
    outcome, actix's `JsonPayloadError`, the body stream and the
    accumulated body. */
module Payload {
  import opened Base

  /** actix-web's `JsonPayloadError`. Each `detail` is the `Display` text
      of the wrapped error (a `PayloadError`, a `serde_json::Error`). */
  datatype JsonPayloadError =
    | OverflowKnownLength(length: usize, limit: usize)
    | Overflow(limit: usize)
    | ContentType
    | Deserialize(detail: string)
    | Serialize(detail: string)
    | Payload(detail: string)

  /** `MaybeJson<T>`: nothing sent, a decoded value, or the reason it was
      refused. */
  datatype MaybeJson<T> = Empty | Valid(value: T) | Invalid(err: JsonPayloadError)

  /** One item of the request's body stream: bytes, or a read error. */
  datatype Chunk = Bytes(data: seq<byte>) | Failed(detail: string)

  /** The bytes of the chunks, in order. */
  function Flatten(chunks: seq<Chunk>): seq<byte>
    decreases |chunks|
  {
    if chunks == [] then []
    else
      var last := chunks[|chunks| - 1];
      Flatten(chunks[..|chunks| - 1]) + (if last.Bytes? then last.data else [])
  }

  predicate AllBytes(chunks: seq<Chunk>) {
    forall i | 0 <= i < |chunks| :: chunks[i].Bytes?
  }

  predicate IsPrefix<X(==)>(p: seq<X>, s: seq<X>) {
    |p| <= |s| && p == s[..|p|]
  }

  lemma {:induction false} FlattenAppend(a: seq<Chunk>, b: seq<Chunk>)
    ensures Flatten(a + b) == Flatten(a) + Flatten(b)
    decreases |b|
  {
    if b == [] {
      assert a + b == a;
    } else {
      var b' := b[..|b| - 1];
      assert (a + b)[..|a + b| - 1] == a + b';
      FlattenAppend(a, b');
    }
  }

  /** The accumulated body only grows as chunks are read. */
  lemma FlattenMonotonic(p: seq<Chunk>, s: seq<Chunk>)
    requires IsPrefix(p, s)
    ensures |Flatten(p)| <= |Flatten(s)|
  {
    assert s == p + s[|p|..];
    FlattenAppend(p, s[|p|..]);
  }

  /** The body with every ASCII-whitespace byte removed. */
  function StripWhitespace(s: seq<byte>): (r: seq<byte>)
    ensures |r| <= |s|
    ensures forall i | 0 <= i < |r| :: !IsAsciiWhitespace(r[i])
    decreases |s|
  {
    if s == [] then []
    else
      var last := s[|s| - 1];
      StripWhitespace(s[..|s| - 1]) + (if IsAsciiWhitespace(last) then [] else [last])
  }

  predicate AllWhitespace(s: seq<byte>) {
    forall i | 0 <= i < |s| :: IsAsciiWhitespace(s[i])
  }

  lemma {:induction false} StripAppend(a: seq<byte>, b: seq<byte>)
    ensures StripWhitespace(a + b) == StripWhitespace(a) + StripWhitespace(b)
    decreases |b|
  {
    if b == [] {
      assert a + b == a;
    } else {
      var b' := b[..|b| - 1];
      assert (a + b)[..|a + b| - 1] == a + b';
      StripAppend(a, b');
    }
  }

  lemma {:induction false} StripAllWhitespace(s: seq<byte>)
    requires AllWhitespace(s)
    ensures StripWhitespace(s) == []
    decreases |s|
  {
    if s != [] {
      StripAllWhitespace(s[..|s| - 1]);
    }
  }

  /** `[]` as bytes. */
  const EMPTY_ARRAY: seq<byte> := [0x5B, 0x5D]

  lemma StripSingle(b: byte)
    requires !IsAsciiWhitespace(b)
    ensures StripWhitespace([b]) == [b]
  {
    assert [b][..0] == [];
  }

  /** Any whitespace around and inside the brackets of `[]` is stripped
      away: such a body counts as the empty array. */
  lemma {:induction false} PaddedEmptyArray(before: seq<byte>, inside: seq<byte>, after: seq<byte>)
    requires AllWhitespace(before) && AllWhitespace(inside) && AllWhitespace(after)
    ensures StripWhitespace(before + [0x5B] + inside + [0x5D] + after) == EMPTY_ARRAY
  {
    var open: seq<byte> := [0x5B];
    var close: seq<byte> := [0x5D];
    var s1 := before + open;
    var s2 := s1 + inside;
    var s3 := s2 + close;
    StripAllWhitespace(before);
    StripAllWhitespace(inside);
    StripAllWhitespace(after);
    StripSingle(0x5B);
    StripSingle(0x5D);
    StripAppend(before, open);
    assert StripWhitespace(s1) == open;
    StripAppend(s1, inside);
    assert StripWhitespace(s2) == open;
    StripAppend(s2, close);
    assert StripWhitespace(s3) == open + close;
    StripAppend(s3, after);
    assert StripWhitespace(s3 + after) == open + close;
  }

  /** A body with no whitespace is left as it is. */
  lemma {:induction false} StripNoWhitespace(s: seq<byte>)
    requires forall i | 0 <= i < |s| :: !IsAsciiWhitespace(s[i])
    ensures StripWhitespace(s) == s
    decreases |s|
  {
    if s != [] {
      StripNoWhitespace(s[..|s| - 1]);
    }
  }
}
