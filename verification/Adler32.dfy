/**
 The Adler-32 checksum that `ProtobufCodecLite::checksum` takes from zlib, as defined in
 sections 2.2 and 8.2 of RFC 1950, and what it detects.
 */
module Adler32 {
  import opened Bytes

  const MODULUS: nat := 65521

  /** The two running sums, reduced after every byte. */
  datatype Sums = Sums(a: nat, b: nat)

  function Update(sums: Sums, byte: Byte): Sums {
    var a := (sums.a + byte) % MODULUS;
    Sums(a, (sums.b + a) % MODULUS)
  }

  function SumsOf(s: seq<Byte>): Sums {
    if s == [] then Sums(1, 0) else Update(SumsOf(s[..|s| - 1]), s[|s| - 1])
  }

  lemma {:induction false} SumsBelowModulus(s: seq<Byte>)
    ensures SumsOf(s).a < MODULUS && SumsOf(s).b < MODULUS
  {
  }

  /** The 32-bit checksum: the second sum in the high half, the first in the low half. */
  function Checksum(s: seq<Byte>): (c: nat)
    ensures c < Pow256(4)
  {
    SumsBelowModulus(s);
    SumsOf(s).b * 65536 + SumsOf(s).a
  }

  /** One plus the sum of the bytes, without reduction. */
  function PlainA(s: seq<Byte>): nat {
    if s == [] then 1 else PlainA(s[..|s| - 1]) + s[|s| - 1]
  }

  /** The sum of `PlainA` over the non-empty prefixes, without reduction. */
  function PlainB(s: seq<Byte>): nat {
    if s == [] then 0 else PlainB(s[..|s| - 1]) + PlainA(s)
  }

  lemma ReduceFirst(x: nat, y: nat)
    ensures (x % MODULUS + y) % MODULUS == (x + y) % MODULUS
  {
  }

  /** Reducing after every byte gives the same sums as reducing once at the end. */
  lemma {:induction false} SumsAreReduced(s: seq<Byte>)
    ensures SumsOf(s) == Sums(PlainA(s) % MODULUS, PlainB(s) % MODULUS)
  {
    if s == [] {
    } else {
      var init, last := s[..|s| - 1], s[|s| - 1];
      SumsAreReduced(init);
      ReduceFirst(PlainA(init), last);
      var a := PlainA(s) % MODULUS;
      ReduceFirst(PlainB(init), a);
      ReduceFirst(PlainA(s), PlainB(init));
    }
  }

  /** The halves of the checksum: the second sum above, the first below. */
  lemma ChecksumPacks(s: seq<Byte>)
    ensures Checksum(s) / 65536 == PlainB(s) % MODULUS && Checksum(s) % 65536 == PlainA(s) % MODULUS
  {
    SumsBelowModulus(s);
    SumsAreReduced(s);
    assert Checksum(s) == SumsOf(s).b * 65536 + SumsOf(s).a;
  }

  /** Replacing one byte moves the first sum by exactly the difference. */
  lemma {:induction false} ReplaceMovesA(s: seq<Byte>, i: nat, x: Byte)
    requires i < |s|
    ensures PlainA(s[i := x]) - PlainA(s) == x as int - s[i]
  {
    var t, n := s[i := x], |s| - 1;
    if i == n {
      assert t[..n] == s[..n];
    } else {
      assert t[..n] == s[..n][i := x];
      ReplaceMovesA(s[..n], i, x);
    }
  }

  function Swapped(s: seq<Byte>, i: nat): (t: seq<Byte>)
    requires i + 1 < |s|
    ensures |t| == |s|
  {
    s[i := s[i + 1]][i + 1 := s[i]]
  }

  /** Exchanging neighbours keeps the first sum and moves the second by their difference. */
  lemma {:induction false} SwapMovesB(s: seq<Byte>, i: nat)
    requires i + 1 < |s|
    ensures PlainA(Swapped(s, i)) == PlainA(s)
    ensures PlainB(Swapped(s, i)) - PlainB(s) == s[i + 1] as int - s[i]
  {
    var t, n := Swapped(s, i), |s| - 1;
    if i + 1 == n {
      var s1, t1 := s[..n], t[..n];
      assert s1[..i] == t1[..i];
      assert PlainA(t1) == PlainA(t1[..i]) + s[i + 1];
      assert PlainA(s1) == PlainA(s1[..i]) + s[i];
    } else {
      assert t[..n] == Swapped(s[..n], i);
      SwapMovesB(s[..n], i);
    }
  }

  lemma CloseResiduesDiffer(x: nat, y: nat, d: int)
    requires x - y == d && d != 0 && -256 < d < 256
    ensures x % MODULUS != y % MODULUS
  {
  }

  lemma ChecksumSeparates(s: seq<Byte>, t: seq<Byte>)
    ensures Checksum(s) == Checksum(t) <==> SumsOf(s) == SumsOf(t)
  {
    SumsBelowModulus(s);
    SumsBelowModulus(t);
    if Checksum(s) == Checksum(t) {
      assert (SumsOf(s).b - SumsOf(t).b) * 65536 == SumsOf(t).a - SumsOf(s).a;
    }
  }

  /** Any change of a single byte, in data of any length, changes the checksum. */
  lemma DetectsReplacement(s: seq<Byte>, i: nat, x: Byte)
    requires i < |s| && x != s[i]
    ensures Checksum(s[i := x]) != Checksum(s)
  {
    SumsAreReduced(s);
    SumsAreReduced(s[i := x]);
    ReplaceMovesA(s, i, x);
    CloseResiduesDiffer(PlainA(s[i := x]), PlainA(s), x as int - s[i]);
    ChecksumSeparates(s, s[i := x]);
  }

  /** So does any exchange of two distinct neighbours. */
  lemma DetectsSwap(s: seq<Byte>, i: nat)
    requires i + 1 < |s| && s[i] != s[i + 1]
    ensures Checksum(Swapped(s, i)) != Checksum(s)
  {
    SumsAreReduced(s);
    SumsAreReduced(Swapped(s, i));
    SwapMovesB(s, i);
    CloseResiduesDiffer(PlainB(Swapped(s, i)), PlainB(s), s[i + 1] as int - s[i]);
    ChecksumSeparates(s, Swapped(s, i));
  }
}
