/**
 The table-driven decimal printers of libel/base/num2string.cpp, against the plain definition of
 decimal notation.
 */
module Num2String {

  // ---------- Decimal notation ----------

  function Digit(d: nat): (c: char)
    requires d < 10
    ensures c as int == '0' as int + d
  {
    ('0' as int + d) as char
  }

  /** The canonical decimal digits of `n`. */
  function Decimal(n: nat): (s: string)
    ensures s != []
  {
    if n < 10 then [Digit(n)] else Decimal(n / 10) + [Digit(n % 10)]
  }

  predicate IsDigit(c: char) {
    '0' <= c <= '9'
  }

  predicate AllDigits(s: string) {
    forall i :: 0 <= i < |s| ==> IsDigit(s[i])
  }

  /** The number that a string of digits denotes. */
  function Value(s: string): nat
    requires AllDigits(s)
  {
    if s == [] then 0 else Value(s[..|s| - 1]) * 10 + (s[|s| - 1] as int - '0' as int)
  }

  /** Reading the digits back gives the number, and there is no leading zero. */
  lemma {:induction false} DecimalReadsBack(n: nat)
    ensures AllDigits(Decimal(n)) && Value(Decimal(n)) == n
    ensures Decimal(n)[0] == '0' <==> n == 0
  {
    if n < 10 {
      assert [Digit(n)][..0] == [];
    } else {
      DecimalReadsBack(n / 10);
      assert Decimal(n)[..|Decimal(n)| - 1] == Decimal(n / 10);
      assert Decimal(n)[0] == Decimal(n / 10)[0];
    }
  }

  /** It is the only string of digits that does. */
  lemma {:induction false} DecimalIsCanonical(s: string)
    requires AllDigits(s) && s != [] && (|s| > 1 ==> s[0] != '0')
    ensures s == Decimal(Value(s))
  {
    var n := |s| - 1;
    var init, last := s[..n], s[n];
    assert s == init + [last];
    if n == 0 {
      assert init == [] && Value(s) == last as int - '0' as int;
    } else {
      DecimalIsCanonical(init);
      DecimalReadsBack(Value(init));
      assert Value(init) > 0;
      assert Value(s) / 10 == Value(init) && Value(s) % 10 == last as int - '0' as int;
    }
  }

  function Pow10(k: nat): (p: nat)
    ensures p >= 1
  {
    if k == 0 then 1 else 10 * Pow10(k - 1)
  }

  lemma {:induction false} DecimalLength(n: nat, k: nat)
    requires k > 0 && n < Pow10(k)
    ensures |Decimal(n)| <= k
  {
    if n < 10 {
    } else {
      DecimalLength(n / 10, k - 1);
    }
  }

  // ---------- Four digits at a time ----------

  /** Exactly four digits. */
  function Pad4(n: nat): (s: string)
    requires n < 10000
    ensures |s| == 4
  {
    [Digit(n / 1000), Digit(n / 100 % 10), Digit(n / 10 % 10), Digit(n % 10)]
  }

  function NumDigits(n: nat): nat
    requires n < 10000
  {
    if n >= 1000 then 4 else if n >= 100 then 3 else if n >= 10 then 2 else 1
  }

  lemma ShortDecimal(n: nat)
    requires n < 10000
    ensures Decimal(n) == Pad4(n)[4 - NumDigits(n)..]
  {
    var n1 := n / 10;
    var n2 := n1 / 10;
    assert n2 == n / 100 && n2 / 10 == n / 1000;
    if n < 10 {
    } else if n < 100 {
      assert Decimal(n) == Decimal(n1) + [Digit(n % 10)];
    } else if n < 1000 {
      assert Decimal(n1) == Decimal(n2) + [Digit(n1 % 10)];
    } else {
      assert Decimal(n2) == Decimal(n / 1000) + [Digit(n2 % 10)];
      assert Decimal(n1) == Decimal(n2) + [Digit(n1 % 10)];
    }
  }

  lemma Peel(n: nat, a: nat, d: nat)
    requires d < 10 && n == 10 * a + d && a > 0
    ensures Decimal(n) == Decimal(a) + [Digit(d)]
  {
    assert n / 10 == a && n % 10 == d;
  }

  lemma PeelTwo(n: nat, a: nat, d: nat, e: nat)
    requires d < 10 && e < 10 && n == 100 * a + 10 * d + e && a > 0
    ensures Decimal(n) == Decimal(a) + [Digit(d), Digit(e)]
  {
    Peel(10 * a + d, a, d);
    Peel(n, 10 * a + d, e);
  }

  lemma PairDigits(v: nat)
    ensures v % 100 / 10 == v / 10 % 10 && v % 100 % 10 == v % 10 && v / 100 / 10 == v / 1000
  {
    var h, l := v / 100, v % 100;
    var t, u := l / 10, l % 10;
    assert v == 100 * h + 10 * t + u;
    assert v / 10 == 10 * h + t;
  }

  /** The last four digits can be split off. */
  lemma DecimalSplits(q: nat, c: nat)
    requires q > 0 && c < 10000
    ensures Decimal(10000 * q + c) == Decimal(q) + Pad4(c)
  {
    var h, l := c / 100, c % 100;
    PairDigits(c);
    PeelTwo(100 * q + h, q, h / 10, h % 10);
    PeelTwo(10000 * q + c, 100 * q + h, l / 10, l % 10);
  }

  // ---------- The table ----------

  const ROW_0: string := "00010203040506070809"
  const ROW_1: string := "10111213141516171819"
  const ROW_2: string := "20212223242526272829"
  const ROW_3: string := "30313233343536373839"
  const ROW_4: string := "40414243444546474849"
  const ROW_5: string := "50515253545556575859"
  const ROW_6: string := "60616263646566676869"
  const ROW_7: string := "70717273747576777879"
  const ROW_8: string := "80818283848586878889"
  const ROW_9: string := "90919293949596979899"

  const ROWS: seq<string> := [ROW_0, ROW_1, ROW_2, ROW_3, ROW_4, ROW_5, ROW_6, ROW_7, ROW_8, ROW_9]

  function Joined(rows: seq<string>): string {
    if rows == [] then "" else Joined(rows[..|rows| - 1]) + rows[|rows| - 1]
  }

  /** `gDigitsLut`: the two digits of every number below a hundred. */
  const DIGITS_LUT: string := Joined(ROWS)

  predicate IsRow(s: string, r: nat)
    requires r < 10
  {
    && |s| == 20
    && s[0] == Digit(r) && s[1] == Digit(0)
    && s[2] == Digit(r) && s[3] == Digit(1)
    && s[4] == Digit(r) && s[5] == Digit(2)
    && s[6] == Digit(r) && s[7] == Digit(3)
    && s[8] == Digit(r) && s[9] == Digit(4)
    && s[10] == Digit(r) && s[11] == Digit(5)
    && s[12] == Digit(r) && s[13] == Digit(6)
    && s[14] == Digit(r) && s[15] == Digit(7)
    && s[16] == Digit(r) && s[17] == Digit(8)
    && s[18] == Digit(r) && s[19] == Digit(9)
  }

  lemma Row0()
    ensures IsRow(ROW_0, 0)
  {
  }

  lemma Row1()
    ensures IsRow(ROW_1, 1)
  {
  }

  lemma Row2()
    ensures IsRow(ROW_2, 2)
  {
  }

  lemma Row3()
    ensures IsRow(ROW_3, 3)
  {
  }

  lemma Row4()
    ensures IsRow(ROW_4, 4)
  {
  }

  lemma Row5()
    ensures IsRow(ROW_5, 5)
  {
  }

  lemma Row6()
    ensures IsRow(ROW_6, 6)
  {
  }

  lemma Row7()
    ensures IsRow(ROW_7, 7)
  {
  }

  lemma Row8()
    ensures IsRow(ROW_8, 8)
  {
  }

  lemma Row9()
    ensures IsRow(ROW_9, 9)
  {
  }

  lemma RowIsRow(r: nat)
    requires r < 10
    ensures |ROWS| == 10 && IsRow(ROWS[r], r)
  {
    match r {
      case 0 => Row0();
      case 1 => Row1();
      case 2 => Row2();
      case 3 => Row3();
      case 4 => Row4();
      case 5 => Row5();
      case 6 => Row6();
      case 7 => Row7();
      case 8 => Row8();
      case _ => Row9();
    }
  }

  lemma RowDigits(s: string, r: nat, j: nat)
    requires r < 10 && j < 10 && IsRow(s, r)
    ensures s[2 * j] == Digit(r) && s[2 * j + 1] == Digit(j)
  {
  }

  lemma {:induction false} JoinedAt(rows: seq<string>, r: nat, t: nat)
    requires r < |rows| && t < 20 && forall i :: 0 <= i < |rows| ==> |rows[i]| == 20
    ensures |Joined(rows)| == 20 * |rows| && Joined(rows)[20 * r + t] == rows[r][t]
  {
    var n := |rows| - 1;
    var init := rows[..n];
    if r < n {
      JoinedAt(init, r, t);
    } else if n > 0 {
      JoinedAt(init, 0, 0);
    }
  }

  lemma TableAt(rows: seq<string>, i: nat)
    requires i < 100 && |rows| == 10 && forall r :: 0 <= r < 10 ==> IsRow(rows[r], r)
    ensures |Joined(rows)| == 200
    ensures Joined(rows)[2 * i] == Digit(i / 10) && Joined(rows)[2 * i + 1] == Digit(i % 10)
  {
    var r, j := i / 10, i % 10;
    RowDigits(rows[r], r, j);
    JoinedAt(rows, r, 2 * j);
    JoinedAt(rows, r, 2 * j + 1);
  }

  /** Entry `i` of the table is `i` in two digits. */
  lemma TableDigits(i: nat)
    requires i < 100
    ensures |DIGITS_LUT| == 200
    ensures DIGITS_LUT[2 * i] == Digit(i / 10) && DIGITS_LUT[2 * i + 1] == Digit(i % 10)
  {
    forall r | 0 <= r < 10
      ensures |ROWS| == 10 && IsRow(ROWS[r], r)
    {
      RowIsRow(r);
    }
    TableAt(ROWS, i);
  }

  // ---------- The printers ----------

  /** Writes that leave everything outside `[from, to)` alone. */
  twostate predicate OnlyWithin(buffer: array<char>, from: nat, to: nat)
    requires from <= to <= buffer.Length
    reads buffer
  {
    forall i :: 0 <= i < from || to <= i < buffer.Length ==> buffer[i] == old(buffer[i])
  }

  function Count4(c1: bool, c2: bool, c3: bool, c4: bool): nat {
    (if c1 then 1 else 0) + (if c2 then 1 else 0) + (if c3 then 1 else 0) + (if c4 then 1 else 0)
  }

  method PutPair(v: nat, buffer: array<char>, pos: nat) returns (end: nat)
    requires v < 100 && pos + 2 <= buffer.Length
    modifies buffer
    ensures end == pos + 2 && OnlyWithin(buffer, pos, end)
    ensures buffer[pos..end] == [Digit(v / 10), Digit(v % 10)]
  {
    TableDigits(v);
    var i := 2 * v;
    buffer[pos] := DIGITS_LUT[i];
    buffer[pos + 1] := DIGITS_LUT[i + 1];
    end := pos + 2;
  }

  /**
   The last `count` of the four digits of a number below 10000, out of the table. The source writes
   each digit behind a condition on the value; the conditions are nested, so that `Count4` of them
   is how many are written.
   */
  method PutFour(v: nat, count: nat, buffer: array<char>, pos: nat) returns (end: nat)
    requires v < 10000 && count <= 4 && pos + count <= buffer.Length
    modifies buffer
    ensures end == pos + count && OnlyWithin(buffer, pos, end)
    ensures buffer[pos..end] == Pad4(v)[4 - count..]
  {
    var d1, d2 := v / 100 * 2, v % 100 * 2;
    TableDigits(v / 100);
    TableDigits(v % 100);
    PairDigits(v);
    end := pos;
    if count >= 4 {
      buffer[end] := DIGITS_LUT[d1];
      end := end + 1;
    }
    if count >= 3 {
      buffer[end] := DIGITS_LUT[d1 + 1];
      end := end + 1;
    }
    if count >= 2 {
      buffer[end] := DIGITS_LUT[d2];
      end := end + 1;
    }
    if count >= 1 {
      buffer[end] := DIGITS_LUT[d2 + 1];
      end := end + 1;
    }
  }

  /** Exactly eight digits. */
  function Pad8(n: nat): (s: string)
    requires n < 100000000
    ensures |s| == 8
  {
    Pad4(n / 10000) + Pad4(n % 10000)
  }

  lemma DecimalSplits8(q: nat, r: nat)
    requires q > 0 && r < 100000000
    ensures Decimal(100000000 * q + r) == Decimal(q) + Pad8(r)
  {
    var b, c := r / 10000, r % 10000;
    DecimalSplits(q, b);
    DecimalSplits(10000 * q + b, c);
    assert 10000 * (10000 * q + b) + c == 100000000 * q + r;
  }

  method PutEight(v: nat, buffer: array<char>, pos: nat) returns (end: nat)
    requires v < 100000000 && pos + 8 <= buffer.Length
    modifies buffer
    ensures end == pos + 8 && OnlyWithin(buffer, pos, end)
    ensures buffer[pos..end] == Pad8(v)
  {
    var mid := PutFour(v / 10000, 4, buffer, pos);
    ghost var head := buffer[pos..mid];
    end := PutFour(v % 10000, 4, buffer, mid);
    assert buffer[pos..mid] == head;
    assert buffer[pos..end] == buffer[pos..mid] + buffer[mid..end];
  }

  /** The last digits of two groups of four. */
  method PutGroups(b: nat, c: nat, high: nat, low: nat, buffer: array<char>, pos: nat) returns (end: nat)
    requires b < 10000 && c < 10000 && high <= 4 && low <= 4
    requires pos + high + low <= buffer.Length
    modifies buffer
    ensures end == pos + high + low && OnlyWithin(buffer, pos, end)
    ensures buffer[pos..end] == Pad4(b)[4 - high..] + Pad4(c)[4 - low..]
  {
    var mid := PutFour(b, high, buffer, pos);
    ghost var head := buffer[pos..mid];
    end := PutFour(c, low, buffer, mid);
    assert buffer[pos..mid] == head;
    assert buffer[pos..end] == buffer[pos..mid] + buffer[mid..end];
  }

  lemma SplitDecimal(b: nat, c: nat)
    requires b < 10000 && c < 10000
    ensures Decimal(10000 * b + c) ==
            if b == 0 then Pad4(b)[4..] + Pad4(c)[4 - NumDigits(c)..]
            else Pad4(b)[4 - NumDigits(b)..] + Pad4(c)[0..]
  {
    if b > 0 {
      ShortDecimal(b);
      DecimalSplits(b, c);
    } else {
      ShortDecimal(c);
    }
  }

  /** The two branches that both printers share: fewer than nine digits. */
  method PutShort(value: nat, buffer: array<char>, pos: nat) returns (end: nat)
    requires value < 100000000 && pos + |Decimal(value)| <= buffer.Length
    modifies buffer
    ensures end == pos + |Decimal(value)| && OnlyWithin(buffer, pos, end)
    ensures buffer[pos..end] == Decimal(value)
  {
    if value < 10000 {
      ShortDecimal(value);
      end := PutFour(value, Count4(value >= 1000, value >= 100, value >= 10, true), buffer, pos);
    } else {
      var b, c := value / 10000, value % 10000;
      SplitDecimal(b, c);
      var high := Count4(value >= 10000000, value >= 1000000, value >= 100000, true);
      assert high == NumDigits(b);
      end := PutGroups(b, c, high, 4, buffer, pos);
    }
  }

  lemma BelowPow10(value: nat)
    requires value < 0x1_0000_0000
    ensures |Decimal(value)| <= 10
  {
    assert Pow10(5) == 100000;
    assert Pow10(10) == 100000 * Pow10(5);
    DecimalLength(value, 10);
  }

  method PutOneOrTwo(a: nat, buffer: array<char>, pos: nat) returns (end: nat)
    requires a < 100 && pos + |Decimal(a)| <= buffer.Length
    modifies buffer
    ensures end == pos + |Decimal(a)| && OnlyWithin(buffer, pos, end)
    ensures buffer[pos..end] == Decimal(a)
  {
    ShortDecimal(a);
    if a >= 10 {
      end := PutPair(a, buffer, pos);
    } else {
      buffer[pos] := Digit(a);
      end := pos + 1;
    }
  }

  method U32toa(value: nat, buffer: array<char>, pos: nat) returns (len: nat)
    requires value < 0x1_0000_0000 && pos + |Decimal(value)| <= buffer.Length
    modifies buffer
    ensures len == |Decimal(value)| <= 10 && OnlyWithin(buffer, pos, pos + len)
    ensures buffer[pos..pos + len] == Decimal(value)
  {
    BelowPow10(value);
    var end;
    if value < 100000000 {
      end := PutShort(value, buffer, pos);
    } else {
      var a, rest := value / 100000000, value % 100000000;
      DecimalSplits8(a, rest);
      var mid := PutOneOrTwo(a, buffer, pos);
      ghost var head := buffer[pos..mid];
      end := PutEight(rest, buffer, mid);
      assert buffer[pos..mid] == head;
      assert buffer[pos..end] == buffer[pos..mid] + buffer[mid..end];
    }
    return end - pos;
  }

  /** How many of the first and of the second four leading digits `u64toa` writes. */
  function High(value: nat): nat {
    Count4(value >= 1000000000000000, value >= 100000000000000, value >= 10000000000000, value >= 1000000000000)
  }

  function Low(value: nat): nat {
    Count4(value >= 100000000000, value >= 10000000000, value >= 1000000000, value >= 100000000)
  }

  lemma LeadingCounts(value: nat, b0: nat, c0: nat)
    requires 100000000 <= value < 10000000000000000 && c0 < 10000
    requires value / 100000000 == 10000 * b0 + c0
    ensures b0 < 10000 && High(value) == if b0 == 0 then 0 else NumDigits(b0)
    ensures Low(value) == if b0 == 0 then NumDigits(c0) else 4
  {
  }

  /** The leading digits of a number with nine to sixteen. */
  lemma LeadingDigits(value: nat)
    requires 100000000 <= value < 10000000000000000
    ensures var v0 := value / 100000000;
            Decimal(v0) == Pad4(v0 / 10000)[4 - High(value)..] + Pad4(v0 % 10000)[4 - Low(value)..]
  {
    var v0 := value / 100000000;
    var b0, c0 := v0 / 10000, v0 % 10000;
    LeadingCounts(value, b0, c0);
    SplitDecimal(b0, c0);
  }

  /** The branch of `u64toa` for nine to sixteen digits, up to the last eight. */
  method PutLeading(value: nat, buffer: array<char>, pos: nat) returns (end: nat)
    requires 100000000 <= value < 10000000000000000 && pos + |Decimal(value / 100000000)| <= buffer.Length
    modifies buffer
    ensures end == pos + |Decimal(value / 100000000)| && OnlyWithin(buffer, pos, end)
    ensures buffer[pos..end] == Decimal(value / 100000000)
  {
    LeadingDigits(value);
    var v0 := value / 100000000;
    end := PutGroups(v0 / 10000, v0 % 10000, High(value), Low(value), buffer, pos);
  }

  /** The first one to four digits in the branch of `u64toa` for seventeen or more. */
  method PutTop(a: nat, buffer: array<char>, pos: nat) returns (end: nat)
    requires 0 < a < 10000 && pos + |Decimal(a)| <= buffer.Length
    modifies buffer
    ensures end == pos + |Decimal(a)| && OnlyWithin(buffer, pos, end)
    ensures buffer[pos..end] == Decimal(a)
  {
    ShortDecimal(a);
    PairDigits(a);
    if a < 10 {
      buffer[pos] := Digit(a);
      end := pos + 1;
    } else if a < 100 {
      end := PutPair(a, buffer, pos);
    } else if a < 1000 {
      buffer[pos] := Digit(a / 100);
      end := PutPair(a % 100, buffer, pos + 1);
      assert buffer[pos..end] == [buffer[pos]] + buffer[pos + 1..end];
    } else {
      var mid := PutPair(a / 100, buffer, pos);
      ghost var head := buffer[pos..mid];
      end := PutPair(a % 100, buffer, mid);
      assert buffer[pos..mid] == head;
      assert buffer[pos..end] == buffer[pos..mid] + buffer[mid..end];
    }
  }

  /** The branch of `u64toa` for nine to sixteen digits. */
  method PutMedium(value: nat, buffer: array<char>, pos: nat) returns (end: nat)
    requires 100000000 <= value < 10000000000000000 && pos + |Decimal(value)| <= buffer.Length
    modifies buffer
    ensures end == pos + |Decimal(value)| && OnlyWithin(buffer, pos, end)
    ensures buffer[pos..end] == Decimal(value)
  {
    DecimalSplits8(value / 100000000, value % 100000000);
    var mid := PutLeading(value, buffer, pos);
    ghost var head := buffer[pos..mid];
    end := PutEight(value % 100000000, buffer, mid);
    assert buffer[pos..mid] == head;
    assert buffer[pos..end] == buffer[pos..mid] + buffer[mid..end];
  }

  lemma DecimalSplits16(value: nat)
    requires value >= 10000000000000000
    ensures var a, rest := value / 10000000000000000, value % 10000000000000000;
            Decimal(value) == Decimal(a) + (Pad8(rest / 100000000) + Pad8(rest % 100000000))
  {
    var a, rest := value / 10000000000000000, value % 10000000000000000;
    var v0, v1 := rest / 100000000, rest % 100000000;
    DecimalSplits8(a, v0);
    DecimalSplits8(100000000 * a + v0, v1);
    assert 100000000 * (100000000 * a + v0) + v1 == value;
  }

  method PutSixteen(rest: nat, buffer: array<char>, pos: nat) returns (end: nat)
    requires rest < 10000000000000000 && pos + 16 <= buffer.Length
    modifies buffer
    ensures end == pos + 16 && OnlyWithin(buffer, pos, end)
    ensures buffer[pos..end] == Pad8(rest / 100000000) + Pad8(rest % 100000000)
  {
    var mid := PutEight(rest / 100000000, buffer, pos);
    ghost var head := buffer[pos..mid];
    end := PutEight(rest % 100000000, buffer, mid);
    assert buffer[pos..mid] == head;
    assert buffer[pos..end] == buffer[pos..mid] + buffer[mid..end];
  }

  /** The branch of `u64toa` for seventeen or more digits. */
  method PutLong(value: nat, buffer: array<char>, pos: nat) returns (end: nat)
    requires 10000000000000000 <= value < 0x1_0000_0000_0000_0000 && pos + |Decimal(value)| <= buffer.Length
    modifies buffer
    ensures end == pos + |Decimal(value)| && OnlyWithin(buffer, pos, end)
    ensures buffer[pos..end] == Decimal(value)
  {
    DecimalSplits16(value);
    var a, rest := value / 10000000000000000, value % 10000000000000000;
    var mid := PutTop(a, buffer, pos);
    ghost var head := buffer[pos..mid];
    end := PutSixteen(rest, buffer, mid);
    assert buffer[pos..mid] == head;
    assert buffer[pos..end] == buffer[pos..mid] + buffer[mid..end];
  }

  lemma BelowPow20(value: nat)
    requires value < 0x1_0000_0000_0000_0000
    ensures |Decimal(value)| <= 20
  {
    assert Pow10(5) == 100000;
    assert Pow10(10) == 100000 * Pow10(5);
    assert Pow10(15) == 100000 * Pow10(10);
    assert Pow10(20) == 100000 * Pow10(15);
    DecimalLength(value, 20);
  }

  method U64toa(value: nat, buffer: array<char>, pos: nat) returns (len: nat)
    requires value < 0x1_0000_0000_0000_0000 && pos + |Decimal(value)| <= buffer.Length
    modifies buffer
    ensures len == |Decimal(value)| <= 20 && OnlyWithin(buffer, pos, pos + len)
    ensures buffer[pos..pos + len] == Decimal(value)
  {
    BelowPow20(value);
    var end;
    if value < 100000000 {
      end := PutShort(value, buffer, pos);
    } else if value < 10000000000000000 {
      end := PutMedium(value, buffer, pos);
    } else {
      end := PutLong(value, buffer, pos);
    }
    return end - pos;
  }

  // ---------- Signed ----------

  function Sign(negative: bool): string {
    if negative then "-" else ""
  }

  function Magnitude(v: int): nat {
    if v < 0 then -v else v
  }

  /** Decimal notation with a sign. */
  function SignedDecimal(v: int): string {
    Sign(v < 0) + Decimal(Magnitude(v))
  }

  function SignedValue(s: string): int
    requires s != [] && AllDigits(if s[0] == '-' then s[1..] else s)
  {
    if s[0] == '-' then 0 - Value(s[1..]) else Value(s)
  }

  lemma SignedReadsBack(v: int)
    ensures var s := SignedDecimal(v);
            s != [] && AllDigits(if s[0] == '-' then s[1..] else s) && SignedValue(s) == v
  {
    var u := Magnitude(v);
    DecimalReadsBack(u);
    if v < 0 {
      assert SignedDecimal(v)[1..] == Decimal(u);
    } else {
      assert SignedDecimal(v) == Decimal(u);
      assert IsDigit(Decimal(u)[0]);
    }
  }

  /**
   Casting to unsigned and, for a negative value, taking `~u + 1` at that width: the absolute value,
   also of the minimum, which has no positive counterpart.
   */
  method Magnitude32(value: int) returns (u: nat)
    requires -0x8000_0000 <= value < 0x8000_0000
    ensures u == Magnitude(value)
  {
    u := value % 0x1_0000_0000;
    if value < 0 {
      u := (0xffff_ffff - u + 1) % 0x1_0000_0000;
    }
  }

  method Magnitude64(value: int) returns (u: nat)
    requires -0x8000_0000_0000_0000 <= value < 0x8000_0000_0000_0000
    ensures u == Magnitude(value)
  {
    u := value % 0x1_0000_0000_0000_0000;
    if value < 0 {
      u := (0xffff_ffff_ffff_ffff - u + 1) % 0x1_0000_0000_0000_0000;
    }
  }

  method PutSign(negative: bool, buffer: array<char>, pos: nat) returns (start: nat)
    requires pos + |Sign(negative)| <= buffer.Length
    modifies buffer
    ensures start == pos + |Sign(negative)| && OnlyWithin(buffer, pos, start)
    ensures buffer[pos..start] == Sign(negative)
  {
    start := pos;
    if negative {
      buffer[pos] := '-';
      start := pos + 1;
    }
  }

  lemma SignedLength32(value: int)
    requires -0x8000_0000 <= value < 0x8000_0000
    ensures |SignedDecimal(value)| <= 11
  {
    BelowPow10(Magnitude(value));
  }

  lemma BelowPow19(value: nat)
    requires value <= 0x8000_0000_0000_0000
    ensures |Decimal(value)| <= 19
  {
    assert Pow10(5) == 100000;
    assert Pow10(10) == 100000 * Pow10(5);
    assert Pow10(15) == 100000 * Pow10(10);
    assert Pow10(19) == 10000 * Pow10(15);
    DecimalLength(value, 19);
  }

  lemma SignedLength64(value: int)
    requires -0x8000_0000_0000_0000 <= value < 0x8000_0000_0000_0000
    ensures |SignedDecimal(value)| <= 20
  {
    BelowPow19(Magnitude(value));
  }

  method I32toa(value: int, buffer: array<char>, pos: nat) returns (len: nat)
    requires -0x8000_0000 <= value < 0x8000_0000 && pos + |SignedDecimal(value)| <= buffer.Length
    modifies buffer
    ensures len == |SignedDecimal(value)| <= 11 && OnlyWithin(buffer, pos, pos + len)
    ensures buffer[pos..pos + len] == SignedDecimal(value)
  {
    var u := Magnitude32(value);
    var start := PutSign(value < 0, buffer, pos);
    ghost var head := buffer[pos..start];
    len := U32toa(u, buffer, start);
    var end := start + len;
    assert buffer[pos..start] == head;
    assert buffer[pos..end] == buffer[pos..start] + buffer[start..end];
    len := end - pos;
    SignedLength32(value);
  }

  method I64toa(value: int, buffer: array<char>, pos: nat) returns (len: nat)
    requires -0x8000_0000_0000_0000 <= value < 0x8000_0000_0000_0000
    requires pos + |SignedDecimal(value)| <= buffer.Length
    modifies buffer
    ensures len == |SignedDecimal(value)| <= 20 && OnlyWithin(buffer, pos, pos + len)
    ensures buffer[pos..pos + len] == SignedDecimal(value)
  {
    var u := Magnitude64(value);
    var start := PutSign(value < 0, buffer, pos);
    ghost var head := buffer[pos..start];
    len := U64toa(u, buffer, start);
    var end := start + len;
    assert buffer[pos..start] == head;
    assert buffer[pos..end] == buffer[pos..start] + buffer[start..end];
    len := end - pos;
    SignedLength64(value);
  }

}
