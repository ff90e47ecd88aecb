/** Bytes and the network byte order of the integers that `Buffer` appends, peeks and prepends. */
module Bytes {

  type Byte = x: int | 0 <= x < 256

  datatype Option<+T> = None | Some(value: T)

  /** Number of values of an unsigned integer of `n` bytes. */
  function Pow256(n: nat): (p: int)
    ensures p >= 1
  {
    if n == 0 then 1 else 256 * Pow256(n - 1)
  }

  /** The low `n` bytes of `x`, most significant first. */
  function BigEndian(n: nat, x: nat): (s: seq<Byte>)
    ensures |s| == n
  {
    if n == 0 then [] else BigEndian(n - 1, x / 256) + [x % 256]
  }

  /** The unsigned integer whose big-endian bytes are `s`. */
  function Value(s: seq<Byte>): nat
  {
    if s == [] then 0 else Value(s[..|s| - 1]) * 256 + s[|s| - 1]
  }

  lemma {:induction false} ValueOfBigEndian(n: nat, x: nat)
    requires x < Pow256(n)
    ensures Value(BigEndian(n, x)) == x
  {
    if n == 0 {
    } else {
      ValueOfBigEndian(n - 1, x / 256);
      assert BigEndian(n, x)[..n - 1] == BigEndian(n - 1, x / 256);
    }
  }

  lemma {:induction false} BigEndianOfValue(s: seq<Byte>)
    ensures Value(s) < Pow256(|s|)
    ensures BigEndian(|s|, Value(s)) == s
  {
    if s == [] {
    } else {
      var init, last := s[..|s| - 1], s[|s| - 1];
      BigEndianOfValue(init);
      assert Value(s) / 256 == Value(init) && Value(s) % 256 == last;
      assert s == init + [last];
    }
  }

  /** `v` fits a two's complement integer of `n` bytes. */
  predicate Fits(n: nat, v: int) {
    -Pow256(n) <= 2 * v < Pow256(n)
  }

  function ToUnsigned(n: nat, v: int): (u: nat)
    requires Fits(n, v)
    ensures u < Pow256(n)
  {
    if v < 0 then v + Pow256(n) else v
  }

  function ToSigned(n: nat, u: nat): (v: int)
    requires u < Pow256(n)
    ensures Fits(n, v)
  {
    if 2 * u < Pow256(n) then u else u - Pow256(n)
  }

  /** A signed integer as it travels: two's complement, network order. */
  function EncodeInt(n: nat, v: int): (s: seq<Byte>)
    requires Fits(n, v)
    ensures |s| == n
  {
    BigEndian(n, ToUnsigned(n, v))
  }

  function DecodeInt(s: seq<Byte>): (v: int)
    ensures Fits(|s|, v)
  {
    BigEndianOfValue(s);
    ToSigned(|s|, Value(s))
  }

  /** Reading back what was written gives the number, and writing what was read gives the bytes. */
  lemma IntRoundTrip(n: nat, v: int)
    requires Fits(n, v)
    ensures DecodeInt(EncodeInt(n, v)) == v
  {
    ValueOfBigEndian(n, ToUnsigned(n, v));
  }

  lemma BytesRoundTrip(s: seq<Byte>)
    ensures EncodeInt(|s|, DecodeInt(s)) == s
  {
    BigEndianOfValue(s);
  }

  lemma DecodeIntInjective(s: seq<Byte>, t: seq<Byte>)
    requires |s| == |t| && DecodeInt(s) == DecodeInt(t)
    ensures s == t
  {
    BytesRoundTrip(s);
    BytesRoundTrip(t);
  }

  /** `s` with `bytes` copied over it from position `at`. */
  function Splice(s: seq<Byte>, at: nat, bytes: seq<Byte>): (r: seq<Byte>)
    requires at + |bytes| <= |s|
    ensures |r| == |s|
    ensures r[at..at + |bytes|] == bytes
    ensures r[..at] == s[..at] && r[at + |bytes|..] == s[at + |bytes|..]
  {
    s[..at] + bytes + s[at + |bytes|..]
  }

  function Max(a: int, b: int): int {
    if a < b then b else a
  }

  function Min(a: int, b: int): int {
    if a < b then a else b
  }
}
