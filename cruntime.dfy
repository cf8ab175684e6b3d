/** The pieces of the C runtime that both firmwares lean on: fixed-width
    integers, the printf conversions they use (%02x, %04x, %u, %04d),
    snprintf truncation and atoi. The targets are 32-bit (nRF52 and RIOT's
    native port, which is built with -m32), so `int` and `long` are 32 bits. */
module CRuntime {

  datatype Option<T> = None | Some(value: T)

  type byte = b: int | 0 <= b < 0x100
  type u16 = x: int | 0 <= x < 0x1_0000
  type u32 = x: int | 0 <= x < 0x1_0000_0000
  type i32 = x: int | -0x8000_0000 <= x < 0x8000_0000

  const U32_MOD: int := 0x1_0000_0000
  const INT_MAX: int := 0x7fff_ffff
  const INT_MIN: int := -0x8000_0000

  /** Conversion to uint32_t (also `(unsigned)` on these targets): wrap modulo 2^32. */
  function ToU32(x: int): u32 {
    x % U32_MOD
  }

  // ---------------------------------------------------------------------
  // Hexadecimal: printf's %02x and %04x (lower-case digits)

  predicate IsLowerHex(c: char) {
    ('0' <= c <= '9') || ('a' <= c <= 'f')
  }

  function HexDigit(n: int): (c: char)
    requires 0 <= n < 16
    ensures IsLowerHex(c)
  {
    if n < 10 then ('0' as int + n) as char else ('a' as int + n - 10) as char
  }

  function HexValue(c: char): int
    requires IsLowerHex(c)
  {
    if c <= '9' then c as int - '0' as int else c as int - 'a' as int + 10
  }

  /** printf("%02x", b) for a byte. */
  function Hex2(b: byte): (s: string)
    ensures |s| == 2 && IsLowerHex(s[0]) && IsLowerHex(s[1])
  {
    [HexDigit(b / 16), HexDigit(b % 16)]
  }

  /** printf("%04x", x) for a 16-bit value. */
  function Hex4(x: u16): (s: string)
    ensures |s| == 4
    ensures ParseHex2(s[..2]) == Some(x / 0x100) && ParseHex2(s[2..]) == Some(x % 0x100)
  {
    ParseHex2OfHex2(x / 0x100);
    ParseHex2OfHex2(x % 0x100);
    Hex2(x / 0x100) + Hex2(x % 0x100)
  }

  /** The inverse of Hex2: two lower-case hex digits back to the byte. */
  function ParseHex2(s: string): (r: Option<byte>)
    requires |s| == 2
  {
    if IsLowerHex(s[0]) && IsLowerHex(s[1]) then Some(HexValue(s[0]) * 16 + HexValue(s[1])) else None
  }

  lemma ParseHex2OfHex2(b: byte)
    ensures ParseHex2(Hex2(b)) == Some(b)
  {
    assert HexValue(HexDigit(b / 16)) == b / 16;
    assert HexValue(HexDigit(b % 16)) == b % 16;
  }

  lemma Hex2OfParseHex2(s: string)
    requires |s| == 2 && ParseHex2(s).Some?
    ensures Hex2(ParseHex2(s).value) == s
  {
    var hi, lo := HexValue(s[0]), HexValue(s[1]);
    var b := hi * 16 + lo;
    assert b / 16 == hi && b % 16 == lo;
    assert HexDigit(hi) == s[0] && HexDigit(lo) == s[1];
  }

  // ---------------------------------------------------------------------
  // Decimal: printf's %u and %04d

  predicate IsDigit(c: char) {
    '0' <= c <= '9'
  }

  predicate AllDigits(s: string) {
    forall i :: 0 <= i < |s| ==> IsDigit(s[i])
  }

  function DigitChar(d: int): (c: char)
    requires 0 <= d < 10
    ensures IsDigit(c)
  {
    ('0' as int + d) as char
  }

  /** The value of a string of decimal digits (most significant first). */
  function DigitsValue(s: string): nat
    requires AllDigits(s)
  {
    if s == [] then 0 else DigitsValue(s[..|s| - 1]) * 10 + (s[|s| - 1] as int - '0' as int)
  }

  /** printf("%u", n): the shortest decimal text of n. */
  function Dec(n: nat): (s: string)
    ensures 1 <= |s| && AllDigits(s)
    ensures |s| == 1 || s[0] != '0'
    decreases n
  {
    if n < 10 then [DigitChar(n)] else Dec(n / 10) + [DigitChar(n % 10)]
  }

  lemma {:induction false} DecValue(n: nat)
    ensures DigitsValue(Dec(n)) == n
    decreases n
  {
    if n >= 10 {
      var s := Dec(n);
      assert s[..|s| - 1] == Dec(n / 10);
      DecValue(n / 10);
    }
  }

  lemma DecShort(n: nat)
    requires n < 10000
    ensures |Dec(n)| <= 4
  {
    if n >= 10 {
      DecShort3(n / 10);
    }
  }

  lemma DecShort3(n: nat)
    requires n < 1000
    ensures |Dec(n)| <= 3
  {
    if n >= 10 {
      DecShort2(n / 10);
    }
  }

  lemma DecShort2(n: nat)
    requires n < 100
    ensures |Dec(n)| <= 2
  {
    if n >= 10 {
      assert n / 10 < 10;
    }
  }

  function Pow10(k: nat): (p: nat)
    ensures p >= 1
  {
    if k == 0 then 1 else 10 * Pow10(k - 1)
  }

  /** A value below 10^k prints in at most k digits. */
  lemma {:induction false} DecBound(n: nat, k: nat)
    requires 1 <= k && n < Pow10(k)
    ensures |Dec(n)| <= k
    decreases n
  {
    if n >= 10 {
      assert Pow10(1) == 10;
      assert k >= 2;
      assert n / 10 < Pow10(k - 1);
      DecBound(n / 10, k - 1);
    }
  }

  /** %04d of an int takes at most eleven characters ("-2147483648"). */
  lemma Pad04Bound(n: i32)
    ensures |Pad04(n)| <= 11
  {
    assert Pow10(10) == 10_000_000_000;
    if n >= 0 {
      DecBound(n, 10);
    } else {
      DecBound(-(n as int), 10);
    }
  }

  function Zeros(k: nat): (s: string)
    ensures |s| == k && AllDigits(s)
  {
    seq(k, _ => '0')
  }

  lemma {:induction false} LeadingZeros(k: nat, s: string)
    requires AllDigits(s)
    ensures AllDigits(Zeros(k) + s) && DigitsValue(Zeros(k) + s) == DigitsValue(s)
    decreases |s|
  {
    var t := Zeros(k) + s;
    if s == [] {
      assert t == Zeros(k);
      ZerosValue(k);
    } else {
      assert t[..|t| - 1] == Zeros(k) + s[..|s| - 1];
      LeadingZeros(k, s[..|s| - 1]);
    }
  }

  lemma {:induction false} ZerosValue(k: nat)
    ensures DigitsValue(Zeros(k)) == 0
  {
    if k > 0 {
      assert Zeros(k)[..k - 1] == Zeros(k - 1);
      ZerosValue(k - 1);
    }
  }

  /** Left-pad with '0' to at least width w (printf's 0 flag). */
  function ZeroPad(s: string, w: nat): (r: string)
  {
    if |s| >= w then s else Zeros(w - |s|) + s
  }

  /** printf("%04d", n): at least four characters, the sign counted in the width. */
  function Pad04(n: int): (s: string)
    ensures 4 <= |s|
    ensures n >= 0 ==> AllDigits(s)
    ensures n < 0 ==> s[0] == '-' && AllDigits(s[1..])
  {
    if n >= 0 then ZeroPad(Dec(n), 4) else "-" + ZeroPad(Dec(-n), 3)
  }

  lemma Pad04Width(n: nat)
    requires n < 10000
    ensures |Pad04(n)| == 4
  {
    DecShort(n);
  }

  // ---------------------------------------------------------------------
  // atoi: skip white space, optional sign, decimal digits; on these
  // targets it is (int)strtol(s, NULL, 10) with a 32-bit long, so a value
  // out of range saturates at INT_MAX / INT_MIN.

  predicate IsSpace(c: char) {
    c == ' ' || ('\t' <= c <= '\r')
  }

  /** The input without its leading white space. */
  function SkipSpace(s: string): (t: string)
    ensures |t| <= |s| && t == s[|s| - |t|..]
    ensures forall i :: 0 <= i < |s| - |t| ==> IsSpace(s[i])
    ensures |t| > 0 ==> !IsSpace(t[0])
  {
    if |s| > 0 && IsSpace(s[0]) then SkipSpace(s[1..]) else s
  }

  /** The longest prefix of s made of decimal digits. */
  function DigitRun(s: string): (d: string)
    ensures AllDigits(d) && d <= s
    ensures |d| < |s| ==> !IsDigit(s[|d|])
  {
    if |s| > 0 && IsDigit(s[0]) then [s[0]] + DigitRun(s[1..]) else []
  }

  function Clamp(v: int): i32 {
    if v > INT_MAX then INT_MAX else if v < INT_MIN then INT_MIN else v
  }

  /** What strtol reads from text that starts after the white space: an
      optional sign and the run of digits that follows it. */
  function SignedDigits(t: string): int
  {
    if |t| > 0 && t[0] == '-' then -(DigitsValue(DigitRun(t[1..])) as int)
    else if |t| > 0 && t[0] == '+' then DigitsValue(DigitRun(t[1..]))
    else DigitsValue(DigitRun(t))
  }

  /** atoi: negative only after a minus sign, and 0 when no digit follows
      the white space and the optional sign. */
  function Atoi(s: string): (r: i32)
    ensures r < 0 ==> |SkipSpace(s)| > 0 && SkipSpace(s)[0] == '-'
    ensures var t := SkipSpace(s);
      (|t| == 0 || !(IsDigit(t[0]) || ((t[0] == '-' || t[0] == '+') && |t| > 1 && IsDigit(t[1])))) ==> r == 0
  {
    Clamp(SignedDigits(SkipSpace(s)))
  }

  lemma {:induction false} DigitRunOfDigits(s: string)
    requires AllDigits(s)
    ensures DigitRun(s) == s
    decreases |s|
  {
    if |s| > 0 {
      DigitRunOfDigits(s[1..]);
    }
  }

  /** atoi of a digit string is its decimal value, saturated at INT_MAX. */
  lemma {:induction false} AtoiDigits(s: string)
    requires |s| > 0 && AllDigits(s)
    ensures Atoi(s) == Clamp(DigitsValue(s))
  {
    assert SkipSpace(s) == s by {
      assert !IsSpace(s[0]);
    }
    DigitRunOfDigits(s);
    assert SignedDigits(s) == DigitsValue(s) by {
      assert s[0] != '-' && s[0] != '+';
    }
  }

  /** atoi of a minus sign followed by digits is the negated value, saturated at INT_MIN. */
  lemma {:induction false} AtoiNegative(p: string)
    requires |p| > 0 && AllDigits(p)
    ensures Atoi("-" + p) == Clamp(-(DigitsValue(p) as int))
  {
    var s := "-" + p;
    assert SkipSpace(s) == s by {
      assert !IsSpace(s[0]);
    }
    assert DigitRun(s[1..]) == p by {
      assert s[1..] == p;
      DigitRunOfDigits(p);
    }
  }

  /** The digits %04d writes for a non-negative value, padded to width w, read back as that value. */
  lemma {:induction false} PaddedDecValue(n: nat, w: nat)
    ensures AllDigits(ZeroPad(Dec(n), w)) && DigitsValue(ZeroPad(Dec(n), w)) == n
  {
    var d := Dec(n);
    DecValue(n);
    if |d| < w {
      LeadingZeros(w - |d|, d);
    }
  }

  /** atoi inverts %04d on every int. */
  lemma AtoiPad04(n: i32)
    ensures Atoi(Pad04(n)) == n
  {
    if n >= 0 {
      AtoiPad04NonNegative(n);
    } else {
      AtoiPad04Negative(n);
    }
  }

  lemma AtoiPad04NonNegative(n: i32)
    requires n >= 0
    ensures Atoi(Pad04(n)) == n
  {
    var p := ZeroPad(Dec(n), 4);
    assert Pad04(n) == p;
    PaddedDecValue(n, 4);
    AtoiDigits(p);
  }

  lemma AtoiPad04Negative(n: i32)
    requires n < 0
    ensures Atoi(Pad04(n)) == n
  {
    var m: nat := -(n as int);
    var p := ZeroPad(Dec(m), 3);
    assert Pad04(n) == "-" + p;
    PaddedDecValue(m, 3);
    AtoiNegative(p);
  }

  /** Leading zeros do not change what atoi reads from a digit string. */
  lemma {:induction false} AtoiLeadingZeros(k: nat, s: string)
    requires |s| > 0 && AllDigits(s)
    ensures Atoi(Zeros(k) + s) == Atoi(s)
  {
    LeadingZeros(k, s);
    AtoiDigits(s);
    AtoiDigits(Zeros(k) + s);
  }

  // ---------------------------------------------------------------------
  // snprintf(buf, size, ...): writes at most size - 1 characters and a NUL.

  function Snprintf(s: string, size: nat): (r: string)
    requires size >= 1
    ensures |r| <= size - 1 && r <= s
    ensures |s| < size ==> r == s
    ensures |s| >= size ==> |r| == size - 1
  {
    if |s| < size then s else s[..size - 1]
  }
}
