/** Python's conversions between ints and text that the library uses:
    `str(n)` and `int(s)` in base 10, and `bin(n)[2:]` and `int(s, 2)` in
    base 2, with the arithmetic facts that tie the text to the number. */
module Numerals {
  import opened PyTypes
  import opened Text

  // ---------------------------------------------------------------------
  // Base 10

  function DigitChar(d: nat): (c: char)
    requires d < 10
    ensures IsDigit(c)
  {
    (48 + d) as char
  }

  function DigitValue(c: char): (d: nat)
    requires IsDigit(c)
    ensures d < 10 && DigitChar(d) == c
  {
    c as int - 48
  }

  /** `str(n)` for n >= 0: decimal digits, no leading zero except for 0 itself. */
  function NatStr(n: nat): (r: string)
    ensures |r| >= 1 && AllDigits(r)
    ensures r[0] == '0' ==> n == 0
  {
    if n < 10 then [DigitChar(n)] else NatStr(n / 10) + [DigitChar(n % 10)]
  }

  /** `str(n)` for any int: a '-' in front of the digits of a negative. */
  function IntStr(n: int): (r: string)
    ensures |r| >= 1
    ensures n >= 0 ==> AllDigits(r)
    ensures n < 0 ==> r[0] == '-' && AllDigits(r[1..])
  {
    if n < 0 then "-" + NatStr(-n) else NatStr(n)
  }

  /** The value of a run of decimal digits. */
  function DecVal(s: string): nat
    requires AllDigits(s)
  {
    if s == [] then 0 else 10 * DecVal(s[..|s| - 1]) + DigitValue(s[|s| - 1])
  }

  lemma {:induction false} DecValNatStr(n: nat)
    ensures DecVal(NatStr(n)) == n
  {
    if n >= 10 {
      DecValNatStr(n / 10);
      var s := NatStr(n);
      assert s[..|s| - 1] == NatStr(n / 10);
    }
  }

  lemma {:induction false} DecValAllZeros(k: nat)
    ensures DecVal(Zeros(k)) == 0
  {
    if k > 0 {
      assert Zeros(k)[..k - 1] == Zeros(k - 1);
      DecValAllZeros(k - 1);
    }
  }

  /** Leading zeros do not change a decimal value. */
  lemma {:induction false} DecValZeros(k: nat, s: string)
    requires AllDigits(s)
    ensures AllDigits(Zeros(k) + s) && DecVal(Zeros(k) + s) == DecVal(s)
    decreases |s|
  {
    if s == [] {
      assert Zeros(k) + s == Zeros(k);
      DecValAllZeros(k);
    } else {
      var z := Zeros(k) + s;
      assert z[..|z| - 1] == Zeros(k) + s[..|s| - 1];
      DecValZeros(k, s[..|s| - 1]);
    }
  }

  /** Digits with single underscores between them, as `int()` accepts them. */
  predicate DigitGroups(s: string)
  {
    && |s| > 0 && IsDigit(s[0]) && IsDigit(s[|s| - 1])
    && (forall i :: 0 <= i < |s| ==> IsDigit(s[i]) || s[i] == '_')
    && (forall i :: 0 <= i < |s| - 1 && s[i] == '_' ==> s[i + 1] != '_')
  }

  function DropUnderscores(s: string): (r: string)
    requires forall i :: 0 <= i < |s| ==> IsDigit(s[i]) || s[i] == '_'
    ensures AllDigits(r)
    ensures AllDigits(s) ==> r == s
  {
    if s == [] then []
    else (if s[0] == '_' then [] else [s[0]]) + DropUnderscores(s[1..])
  }

  /** `int(s)` for a str in base 10: surrounding white space is ignored,
      one '+' or '-' may lead, then ASCII digits with single underscores
      between them. `None` stands for the ValueError `int` raises. */
  function ParseInt(s: string): Option<int>
  {
    var t := Strip(s);
    var signed := |t| > 0 && (t[0] == '+' || t[0] == '-');
    var body := if signed then t[1..] else t;
    if !DigitGroups(body) then None
    else
      var m: int := DecVal(DropUnderscores(body));
      Some(if signed && t[0] == '-' then -m else m)
  }

  /** Unsigned digits read back as their decimal value. */
  lemma ParseIntDigits(z: string)
    requires |z| > 0 && AllDigits(z)
    ensures ParseInt(z) == Some(DecVal(z))
  {
    DigitPlain(z[0]);
    DigitPlain(z[|z| - 1]);
    StripUntouched(z);
    DigitsAreGroups(z);
  }

  lemma DigitPlain(c: char)
    requires IsDigit(c)
    ensures !IsSpace(c) && c != '+' && c != '-'
  {
  }

  lemma DigitsAreGroups(s: string)
    requires |s| > 0 && AllDigits(s)
    ensures DigitGroups(s) && DropUnderscores(s) == s
  {
  }

  /** A '-' before digits reads back as the negated decimal value. */
  lemma ParseIntNegDigits(z: string)
    requires |z| > 1 && z[0] == '-' && AllDigits(z[1..])
    ensures ParseInt(z) == Some(0 - DecVal(z[1..]))
  {
    assert !IsSpace(z[0]);
    assert IsDigit(z[|z| - 1]) by {
      assert z[|z| - 1] == z[1..][|z| - 2];
    }
    DigitPlain(z[|z| - 1]);
    StripUntouched(z);
    DigitsAreGroups(z[1..]);
  }

  /** `int(str(n).zfill(w)) == n`: the decimal text of an int, zero-padded
      to any width, reads back as the same int. */
  lemma ParseIntPadded(n: int, w: int)
    ensures ParseInt(ZFill(IntStr(n), w)) == Some(n)
  {
    if n >= 0 {
      ParseIntPaddedNat(n, w);
    } else {
      ParseIntPaddedNeg(n, w);
    }
  }

  lemma ParseIntPaddedNat(n: nat, w: int)
    ensures ParseInt(ZFill(IntStr(n), w)) == Some(n as int)
  {
    var s := IntStr(n);
    var z := ZFill(s, w);
    ZFillUnsigned(s, w);
    DecValZeros(|z| - |s|, s);
    DecValNatStr(n);
    ParseIntDigits(z);
  }

  /** Zeros in front of the decimal text of `m` leave its value `m`. */
  lemma PaddedNatStr(k: nat, m: nat)
    ensures AllDigits(Zeros(k) + NatStr(m)) && DecVal(Zeros(k) + NatStr(m)) == m
  {
    DecValZeros(k, NatStr(m));
    DecValNatStr(m);
  }

  lemma ParseIntPaddedNeg(n: int, w: int)
    requires n < 0
    ensures ParseInt(ZFill(IntStr(n), w)) == Some(n)
  {
    var s := IntStr(n);
    var z := ZFill(s, w);
    var k := |z| - |s|;
    assert s == "-" + NatStr(-n);
    ZFillSigned(s, w);
    MinusPadded(z, s, k, NatStr(-n));
    ParseIntMinusPadded(z, k, -n);
  }

  lemma MinusPadded(z: string, s: string, k: nat, t: string)
    requires s == "-" + t && |t| >= 1 && z == [s[0]] + Zeros(k) + s[1..]
    ensures |z| > 1 && z[0] == '-' && z[1..] == Zeros(k) + t
  {
    assert s[1..] == t;
  }

  /** A minus sign, zeros, then the digits of `m` read back as `-m`. */
  lemma ParseIntMinusPadded(z: string, k: nat, m: nat)
    requires |z| > 1 && z[0] == '-' && z[1..] == Zeros(k) + NatStr(m)
    ensures ParseInt(z) == Some(0 - m)
  {
    PaddedNatStr(k, m);
    ParseIntNegDigits(z);
  }

  /** `int(str(n)) == n` */
  lemma ParseIntStr(n: int)
    ensures ParseInt(IntStr(n)) == Some(n)
  {
    ParseIntPadded(n, 0);
  }

  // ---------------------------------------------------------------------
  // Base 2

  function Pow2(k: nat): (p: nat)
    ensures p >= 1
  {
    if k == 0 then 1 else 2 * Pow2(k - 1)
  }

  lemma {:induction false} Pow2Add(a: nat, b: nat)
    ensures Pow2(a + b) == Pow2(a) * Pow2(b)
  {
    if b > 0 {
      Pow2Add(a, b - 1);
    }
  }

  /** The powers of two that the object-ID layout uses. */
  lemma Pow2Widths()
    ensures Pow2(1) == 2 && Pow2(3) == 8 && Pow2(4) == 16
    ensures Pow2(11) == 0x800 && Pow2(12) == 0x1000 && Pow2(16) == 0x1_0000
    ensures Pow2(63) == 0x8000_0000_0000_0000
    ensures Pow2(64) == 0x1_0000_0000_0000_0000
  {
    assert Pow2(4) == 16;
    Pow2Add(4, 4);
    Pow2Add(8, 3);
    Pow2Add(8, 4);
    Pow2Add(8, 8);
    Pow2Add(16, 16);
    Pow2Add(32, 32);
    Pow2Add(32, 31);
    Pow2Add(16, 15);
    Pow2Add(12, 3);
  }

  predicate IsBit(c: char) { c == '0' || c == '1' }

  predicate AllBits(s: string) { forall i :: 0 <= i < |s| ==> IsBit(s[i]) }

  function BitChar(b: nat): char
    requires b < 2
  {
    if b == 0 then '0' else '1'
  }

  function BitValue(c: char): nat
    requires IsBit(c)
  {
    if c == '0' then 0 else 1
  }

  /** `bin(n)[2:]` for n >= 0: binary digits, no leading zero except for 0 itself. */
  function BinDigits(n: nat): (r: string)
    ensures |r| >= 1 && AllBits(r)
  {
    if n < 2 then [BitChar(n)] else BinDigits(n / 2) + [BitChar(n % 2)]
  }

  /** `bin(n)[2:]`: for a negative n, `bin` writes "-0b" before the digits,
      so dropping two characters leaves a 'b' in front. */
  function BinText(n: int): string
  {
    if n >= 0 then BinDigits(n) else "b" + BinDigits(-n)
  }

  /** The value of a run of binary digits. */
  function BinVal(s: string): nat
    requires AllBits(s)
  {
    if s == [] then 0 else 2 * BinVal(s[..|s| - 1]) + BitValue(s[|s| - 1])
  }

  lemma {:induction false} BinValBound(s: string)
    requires AllBits(s)
    ensures BinVal(s) < Pow2(|s|)
  {
    if s != [] {
      BinValBound(s[..|s| - 1]);
    }
  }

  /** `int(s, 2)` on text made of '0', '1' and 'b' (the only characters
      `bin(n)[2:].zfill(64)` can hold): binary digits, optionally after a
      "0b" prefix. `None` stands for the ValueError `int` raises. */
  function ParseBin(s: string): (r: Option<nat>)
    ensures r.Some? ==> r.value < Pow2(|s|)
    ensures |s| > 0 && AllBits(s) ==> r.Some?
  {
    if |s| > 0 && AllBits(s) then
      BinValBound(s);
      Some(BinVal(s))
    else if |s| > 2 && s[..2] == "0b" && AllBits(s[2..]) then
      BinValBound(s[2..]);
      Pow2Add(|s| - 2, 2);
      Some(BinVal(s[2..]))
    else None
  }

  lemma {:induction false} BinValDigits(n: nat)
    ensures BinVal(BinDigits(n)) == n
  {
    if n >= 2 {
      BinValDigits(n / 2);
      var s := BinDigits(n);
      assert s[..|s| - 1] == BinDigits(n / 2);
    }
  }

  /** A number below 2^k has at most k binary digits. */
  lemma {:induction false} BinDigitsFit(n: nat, k: nat)
    requires k >= 1 && n < Pow2(k)
    ensures |BinDigits(n)| <= k
  {
    if n >= 2 {
      BinDigitsFit(n / 2, k - 1);
    }
  }

  /** From `2^k` on, a number takes more than `k` binary digits. */
  lemma {:induction false} BinDigitsLong(n: nat, k: nat)
    requires n >= Pow2(k)
    ensures |BinDigits(n)| >= k + 1
  {
    if k > 0 {
      BinDigitsLong(n / 2, k - 1);
    }
  }

  lemma {:induction false} BinValAllZeros(k: nat)
    ensures AllBits(Zeros(k)) && BinVal(Zeros(k)) == 0
  {
    if k > 0 {
      assert Zeros(k)[..k - 1] == Zeros(k - 1);
      BinValAllZeros(k - 1);
    }
  }

  /** Leading zeros do not change a binary value. */
  lemma {:induction false} BinValZeros(k: nat, s: string)
    requires AllBits(s)
    ensures AllBits(Zeros(k) + s) && BinVal(Zeros(k) + s) == BinVal(s)
    decreases |s|
  {
    BinValAllZeros(k);
    if s == [] {
      assert Zeros(k) + s == Zeros(k);
    } else {
      var z := Zeros(k) + s;
      assert z[..|z| - 1] == Zeros(k) + s[..|s| - 1];
      BinValZeros(k, s[..|s| - 1]);
    }
  }

  lemma BinValLast(s: string)
    requires AllBits(s) && |s| > 0
    ensures BinVal(s) == 2 * BinVal(s[..|s| - 1]) + BitValue(s[|s| - 1])
  {
  }

  lemma MulDouble(a: int, p: int, q: int)
    requires q == 2 * p
    ensures a * q == 2 * (a * p)
  {
  }

  lemma BinValLastSlice(s: string, i: nat, j: nat)
    requires AllBits(s) && i < j <= |s|
    ensures BinVal(s[i..j]) == 2 * BinVal(s[i..j - 1]) + BitValue(s[j - 1])
  {
    var y := s[i..j];
    assert y[..|y| - 1] == s[i..j - 1];
    BinValLast(y);
  }

  /** The arithmetic of one step of `BinValSplit`, on plain numbers. */
  lemma ShiftStep(x: int, x1: int, y: int, y1: int, b: int, ap: int, aq: int)
    requires x == 2 * x1 + b && x1 == ap + y1 && y == 2 * y1 + b && aq == 2 * ap
    ensures x == aq + y
  {
  }

  /** The value of a prefix is the value of a shorter prefix shifted left
      past the digits in between, plus the value of those digits. */
  lemma {:induction false} BinValSplit(s: string, i: nat, j: nat)
    requires AllBits(s) && i <= j <= |s|
    ensures BinVal(s[..j]) == BinVal(s[..i]) * Pow2(j - i) + BinVal(s[i..j])
    decreases j - i
  {
    if i < j {
      BinValSplit(s, i, j - 1);
      BinValLastSlice(s, 0, j);
      BinValLastSlice(s, i, j);
      assert s[0..j] == s[..j] && s[0..j - 1] == s[..j - 1];
      MulDouble(BinVal(s[..i]), Pow2(j - 1 - i), Pow2(j - i));
      ShiftStep(BinVal(s[..j]), BinVal(s[..j - 1]), BinVal(s[i..j]), BinVal(s[i..j - 1]), BitValue(s[j - 1]),
                BinVal(s[..i]) * Pow2(j - 1 - i), BinVal(s[..i]) * Pow2(j - i));
    } else {
      assert s[i..j] == [];
    }
  }

  /** Two runs of binary digits of the same length and value are the same text. */
  lemma {:induction false} BinUnique(s: string, t: string)
    requires AllBits(s) && AllBits(t) && |s| == |t| && BinVal(s) == BinVal(t)
    ensures s == t
  {
    if s != [] {
      var n := |s|;
      BinUnique(s[..n - 1], t[..n - 1]);
      assert s[n - 1] == t[n - 1];
      assert s == s[..n - 1] + [s[n - 1]];
      assert t == t[..n - 1] + [t[n - 1]];
    }
  }
}
