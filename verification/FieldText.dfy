/**
  Integer columns of db/MysqlMeta.cpp: the SQL text of a value and the value of a text.  The text
  is printed into a buffer of 20 bytes, so at most 19 characters of it are kept; the value lives
  in a union of which the parser always writes the 64-bit member.
 */
module FieldText {

  datatype Type = Int32 | Int64 | UInt32 | UInt64

  const BUFFER: nat := 20
  const NUMBER_BUFFER: nat := 64
  const TWO32: int := 0x1_0000_0000
  const TWO63: int := 0x8000_0000_0000_0000
  const TWO64: int := 0x1_0000_0000_0000_0000

  // The 64 bits of the union, as an unsigned number.
  type Bits = b: int | 0 <= b < TWO64

  // ---------------------------------------------------------------- the union

  function AsSigned64(b: Bits): (v: int) {
    if b < TWO63 then b else b - TWO64
  }

  function AsSigned32(b: Bits): (v: int) {
    if b % TWO32 < TWO32 / 2 then b % TWO32 else b % TWO32 - TWO32
  }

  /** The member the column's type names; the machine is little endian. */
  function View(t: Type, b: Bits): (v: int) {
    match t
    case Int32 => AsSigned32(b)
    case Int64 => AsSigned64(b)
    case UInt32 => b % TWO32
    case UInt64 => b
  }

  function Store64(v: int): (b: Bits) {
    v % TWO64
  }

  // ---------------------------------------------------------------- printing

  function Digit(d: int): (c: char)
    requires 0 <= d < 10
  {
    (48 + d) as char
  }

  function Digits(n: nat): (s: string)
    ensures s != []
  {
    if n < 10 then [Digit(n)] else Digits(n / 10) + [Digit(n % 10)]
  }

  function Decimal(v: int): (s: string) {
    if v < 0 then ['-'] + Digits(-v) else Digits(v)
  }

  /** snprintf keeps what fits before the terminator. */
  function Fit(s: string): (r: string) {
    if |s| < BUFFER then s else s[..BUFFER - 1]
  }

  /** GetFieldValueSQL. */
  function Print(t: Type, b: Bits): (s: string) {
    Fit(Decimal(View(t, b)))
  }

  // ---------------------------------------------------------------- parsing

  predicate IsDigit(c: char) { '0' <= c <= '9' }

  function Value(c: char): (d: int)
    requires IsDigit(c)
    ensures 0 <= d < 10
  {
    c as int - 48
  }

  /** The digits at the start of a text, from position i on. */
  function ReadFrom(s: string, i: nat, acc: nat): (n: nat)
    requires i <= |s|
    decreases |s| - i
  {
    if i < |s| && IsDigit(s[i]) then ReadFrom(s, i + 1, acc * 10 + Value(s[i])) else acc
  }

  function Clamp(v: int, lo: int, hi: int): (r: int)
    requires lo <= hi
  {
    if v < lo then lo else if hi < v then hi else v
  }

  function Signed(s: string): (v: int) {
    var negative := s != [] && s[0] == '-';
    var n: int := ReadFrom(s, if negative then 1 else 0, 0);
    if negative then -n else n
  }

  function StrToL(s: string): (v: int) {
    Clamp(Signed(s), -TWO63, TWO63 - 1)
  }

  /** strtoul also takes a sign, and negates in the unsigned type. */
  function StrToUL(s: string): (v: int) {
    var v := Signed(s);
    if TWO64 <= v || v <= -TWO64 then TWO64 - 1 else v % TWO64
  }

  /** SetFieldValue. */
  function Parse(t: Type, s: string): (b: Bits) {
    var text := if |s| < NUMBER_BUFFER then s else s[..NUMBER_BUFFER - 1];
    Store64(if t.Int32? || t.Int64? then StrToL(text) else StrToUL(text))
  }

  // ---------------------------------------------------------------- digits

  function Pow10(k: nat): (p: nat) {
    if k == 0 then 1 else 10 * Pow10(k - 1)
  }

  lemma {:induction false} DigitsLength(n: nat, k: nat)
    requires 1 <= k
    ensures |Digits(n)| <= k <==> n < Pow10(k)
    decreases k
  {
    if k == 1 {
      assert Pow10(1) == 10 * Pow10(0) == 10;
      if 10 <= n { assert Digits(n / 10) != []; }
    } else if n < 10 {
      PowGrows(k);
    } else {
      DigitsLength(n / 10, k - 1);
    }
  }

  lemma {:induction false} PowGrows(k: nat)
    requires 1 <= k
    ensures 10 <= Pow10(k)
    decreases k
  {
    if k == 1 { assert Pow10(0) == 1; } else { PowGrows(k - 1); }
  }

  lemma {:induction false} AllDigits(n: nat)
    ensures forall i :: 0 <= i < |Digits(n)| ==> IsDigit(Digits(n)[i])
    decreases n
  {
    if 10 <= n { AllDigits(n / 10); }
  }

  lemma {:induction false} ReadLast(p: string, s: string, c: char, acc: nat, i: nat)
    requires i <= |s| && IsDigit(c) && forall k :: 0 <= k < |s| ==> IsDigit(s[k])
    ensures ReadFrom(p + (s + [c]), |p| + i, acc) == ReadFrom(p + s, |p| + i, acc) * 10 + Value(c)
    decreases |s| - i
  {
    var t := p + (s + [c]);
    if i < |s| {
      assert t[|p| + i] == s[i] == (p + s)[|p| + i];
      ReadLast(p, s, c, acc * 10 + Value(s[i]), i + 1);
    } else {
      assert t[|p| + i] == c;
      assert ReadFrom(t, |p| + i + 1, acc * 10 + Value(c)) == acc * 10 + Value(c);
    }
  }

  /** Reading back printed digits, behind any prefix `p`. */
  lemma {:induction false} ReadDigits(p: string, n: nat)
    ensures ReadFrom(p + Digits(n), |p|, 0) == n
    decreases n
  {
    if n < 10 {
      var t := p + Digits(n);
      assert t[|p|] == Digit(n) && Value(Digit(n)) == n;
      assert ReadFrom(t, |p| + 1, n) == n;
    } else {
      ReadDigits(p, n / 10);
      AllDigits(n / 10);
      ReadLast(p, Digits(n / 10), Digit(n % 10), 0, 0);
    }
  }

  lemma {:induction false} SignedOfDecimal(v: int)
    ensures Signed(Decimal(v)) == v
  {
    if v < 0 {
      ReadDigits("-", -v);
    } else {
      ReadDigits("", v);
      AllDigits(v);
      assert "" + Digits(v) == Digits(v);
      assert IsDigit(Digits(v)[0]);
    }
  }

  // ---------------------------------------------------------------- the round trip

  /** The value the 19 characters keep: all of it, or all but its last digit. */
  function Kept(v: int): (r: int) {
    if v <= -1_000_000_000_000_000_000 then -(-v / 10)
    else if 10_000_000_000_000_000_000 <= v then v / 10
    else v
  }

  lemma {:induction false} Powers()
    ensures Pow10(18) == 1_000_000_000_000_000_000 && Pow10(19) == 10_000_000_000_000_000_000
    ensures Pow10(20) == 100_000_000_000_000_000_000
  {
    assert Pow10(6) == 1_000_000 by { assert Pow10(3) == 1000; }
    assert Pow10(12) == 1_000_000_000_000 by { assert Pow10(9) == 1_000_000_000; }
    assert Pow10(18) == 1_000_000_000_000_000_000 by { assert Pow10(15) == 1_000_000_000_000_000; }
  }

  lemma {:induction false} FitOfDecimal(v: int)
    requires -TWO63 <= v < TWO64
    ensures Fit(Decimal(v)) == Decimal(Kept(v))
  {
    Powers();
    if v < 0 {
      DigitsLength(-v, 18);
      DigitsLength(-v, 19);
      if Pow10(18) <= -v {
        var d := Digits(-v / 10);
        assert Decimal(v)[..19] == ['-'] + d;
      }
    } else {
      DigitsLength(v, 19);
      DigitsLength(v, 20);
      if Pow10(19) <= v { assert Decimal(v)[..19] == Digits(v / 10); }
    }
  }

  /**
    A value of the column's range, printed as SQL text and parsed back: the result is what 19
    characters keep of it.  32-bit columns come back unchanged; a BIGINT does if and only if it
    is above -10^18, a BIGINT UNSIGNED if and only if it is below 10^19; outside these bounds it
    comes back without its last digit.
   */
  lemma {:induction false} PrintThenParse(t: Type, b: Bits)
    ensures View(t, Parse(t, Print(t, b))) == Kept(View(t, b))
    ensures (t.Int32? || t.UInt32?) ==> View(t, Parse(t, Print(t, b))) == View(t, b)
    ensures t.Int64? ==> (View(t, Parse(t, Print(t, b))) == View(t, b) <==> -1_000_000_000_000_000_000 < View(t, b))
    ensures t.UInt64? ==> (View(t, Parse(t, Print(t, b))) == View(t, b) <==> View(t, b) < 10_000_000_000_000_000_000)
  {
    var v := View(t, b);
    FitOfDecimal(v);
    SignedOfDecimal(Kept(v));
    assert |Fit(Decimal(v))| < NUMBER_BUFFER;
    ViewOfStored(t, Kept(v));
  }

  lemma {:induction false} ViewOfStored(t: Type, v: int)
    requires InRange(t, v)
    ensures View(t, Store64(v)) == v
  {
  }

  // ---------------------------------------------------------------- reading what the database sends

  /** The values a column of the type can hold. */
  predicate InRange(t: Type, v: int) {
    match t
    case Int32 => -0x8000_0000 <= v < 0x8000_0000
    case Int64 => -0x8000_0000_0000_0000 <= v < 0x8000_0000_0000_0000
    case UInt32 => 0 <= v < 0x1_0000_0000
    case UInt64 => 0 <= v < 0x1_0000_0000_0000_0000
  }

  lemma {:induction false} DigitsPrefix(n: nat, k: nat)
    requires 1 <= k < |Digits(n)|
    ensures exists m: nat :: m < n && Digits(n)[..k] == Digits(m) && Pow10(k) <= 10 * m
    decreases n
  {
    var d := Digits(n / 10);
    assert 10 <= n;
    if k == |d| {
      assert Digits(n)[..k] == d;
      if 1 < k { DigitsLength(n / 10, k - 1); } else { NoLeadingZero(n); }
    } else {
      DigitsPrefix(n / 10, k);
      assert Digits(n)[..k] == d[..k];
    }
  }

  lemma {:induction false} NoLeadingZero(n: nat)
    requires 10 <= n && |Digits(n)| == 2
    ensures 1 <= n / 10 && Pow10(1) == 10
  {
    assert Pow10(1) == 10 * Pow10(0);
  }

  lemma {:induction false} LongPrefix(n: nat, k: nat) returns (m: nat)
    requires 22 <= k < |Digits(n)|
    ensures m < n && Digits(n)[..k] == Digits(m) && 0x1_0000_0000_0000_0000 <= m
  {
    DigitsPrefix(n, k);
    m :| m < n && Digits(n)[..k] == Digits(m) && Pow10(k) <= 10 * m;
    PowersGrow(22, k);
    TwentyTwo();
  }

  lemma {:induction false} TwentyTwo()
    ensures 10 * 0x1_0000_0000_0000_0000 <= Pow10(22)
  {
    Powers();
    assert Pow10(22) == 10 * Pow10(21) && Pow10(21) == 10 * Pow10(20);
  }

  // The first 63 characters of a longer number, which is beyond every 64-bit bound, and so are they.
  lemma {:induction false} LongText(v: int) returns (w: int)
    requires NUMBER_BUFFER <= |Decimal(v)|
    ensures Decimal(v)[..NUMBER_BUFFER - 1] == Decimal(w)
    ensures if v < 0 then v <= -0x1_0000_0000_0000_0000 && w <= -0x1_0000_0000_0000_0000
            else 0x1_0000_0000_0000_0000 <= v && 0x1_0000_0000_0000_0000 <= w
  {
    if v < 0 {
      var m := LongPrefix(-v, NUMBER_BUFFER - 2);
      w := m;
      w := -w;
      assert Decimal(v)[..NUMBER_BUFFER - 1] == ['-'] + Digits(-v)[..NUMBER_BUFFER - 2];
    } else {
      w := LongPrefix(v, NUMBER_BUFFER - 1);
    }
  }

  lemma {:induction false} PowersGrow(j: nat, k: nat)
    requires j <= k
    ensures Pow10(j) <= Pow10(k)
    decreases k
  {
    if j < k { PowersGrow(j, k - 1); }
  }

  /** What strtol or strtoul makes of a number of any size, as the bits of the union. */
  function Stored(t: Type, v: int): (b: Bits) {
    if t.Int32? || t.Int64? then
      Store64(Clamp(v, -0x8000_0000_0000_0000, 0x7FFF_FFFF_FFFF_FFFF))
    else if 0x1_0000_0000_0000_0000 <= v || v <= -0x1_0000_0000_0000_0000 then 0xFFFF_FFFF_FFFF_FFFF
    else Store64(v)
  }

  /**
    The text of any number whatever its length, as the database sends it: a number of the column's
    range is read as itself; a longer one as the bound of the 64-bit type, and a negative one in an
    unsigned column modulo 2^64 as long as its magnitude fits.
   */
  lemma {:induction false} ParseOfDecimal(t: Type, v: int)
    ensures Parse(t, Decimal(v)) == Stored(t, v)
    ensures InRange(t, v) ==> View(t, Parse(t, Decimal(v))) == v
    ensures t.Int64? ==> View(t, Parse(t, Decimal(v))) == Clamp(v, -0x8000_0000_0000_0000, 0x7FFF_FFFF_FFFF_FFFF)
    ensures t.UInt64? && 0 <= v ==> View(t, Parse(t, Decimal(v))) == Clamp(v, 0, 0xFFFF_FFFF_FFFF_FFFF)
  {
    if |Decimal(v)| < NUMBER_BUFFER {
      SignedOfDecimal(v);
    } else {
      var w := LongText(v);
      SignedOfDecimal(w);
    }
    if InRange(t, v) { ViewOfStored(t, v); }
  }

  function Zeros(z: nat): (s: string)
    ensures |s| == z && forall i :: 0 <= i < z ==> s[i] == '0'
  {
    seq(z, _ => '0')
  }

  lemma {:induction false} ReadZeros(s: string, i: nat, z: nat)
    requires i <= z <= |s| && forall k :: i <= k < z ==> s[k] == '0'
    ensures ReadFrom(s, i, 0) == ReadFrom(s, z, 0)
    decreases z - i
  {
    if i < z { ReadZeros(s, i + 1, z); }
  }

  /**
    Of a number padded with zeros the first 63 characters are read: the whole number if it ends
    there, and 0 if only padding is left of it.
   */
  lemma {:induction false} ParseOfPadded(t: Type, z: nat, n: nat)
    requires InRange(t, n)
    ensures z + |Digits(n)| <= 63 ==> View(t, Parse(t, Zeros(z) + Digits(n))) == n
    ensures 63 <= z ==> View(t, Parse(t, Zeros(z) + Digits(n))) == 0
  {
    var s := Zeros(z) + Digits(n);
    AllDigits(n);
    assert IsDigit(s[0]) by { assert s[0] == if z == 0 then Digits(n)[0] else '0'; }
    if z + |Digits(n)| <= 63 {
      ReadZeros(s, 0, z);
      ReadDigits(Zeros(z), n);
      ViewOfStored(t, n);
    } else if 63 <= z {
      var text := s[..63];
      ReadZeros(text, 0, 63);
      ViewOfStored(t, 0);
    }
  }
}
