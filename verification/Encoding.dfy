/** Byte strings and their encodings. A Go string or byte slice is a Dafny string with one
    character per byte. */
module Encoding {
  import opened Prelude

  type Bytes = s: string | forall i :: 0 <= i < |s| ==> s[i] as int < 256

  /** A 32-byte word. */
  type Word = w: Bytes | |w| == 32 witness seq(32, _ => 'a')

  function Pow256(n: nat): (r: nat)
    ensures r > 0
  {
    if n == 0 then 1 else 256 * Pow256(n - 1)
  }

  /** The `width` low-order bytes of `n`, most significant first. */
  function BigEndian(n: nat, width: nat): (b: Bytes)
    ensures |b| == width
  {
    if width == 0 then []
    else
      var init: Bytes := BigEndian(n / 256, width - 1);
      var b := init + [(n % 256) as char];
      assert forall i :: 0 <= i < |b| ==> b[i] == if i < |init| then init[i] else (n % 256) as char;
      b
  }

  /** Fixed-width encoding loses nothing below 256^width. */
  lemma {:induction false} BigEndianInjective(m: nat, n: nat, width: nat)
    requires m < Pow256(width) && n < Pow256(width)
    requires BigEndian(m, width) == BigEndian(n, width)
    ensures m == n
  {
    if width > 0 {
      var bm, bn := BigEndian(m / 256, width - 1), BigEndian(n / 256, width - 1);
      assert bm + [(m % 256) as char] == bn + [(n % 256) as char];
      AppendInjective(bm, [(m % 256) as char], bn, [(n % 256) as char]);
      assert [(m % 256) as char][0] == [(n % 256) as char][0];
      assert (m % 256) as char as int == m % 256 && (n % 256) as char as int == n % 256;
      assert m / 256 < Pow256(width - 1) && n / 256 < Pow256(width - 1);
      BigEndianInjective(m / 256, n / 256, width - 1);
    }
  }

  /** The number that a byte string spells, its first byte the most significant. */
  function Spelled(b: string): nat {
    if |b| == 0 then 0 else b[0] as int * Pow256(|b| - 1) + Spelled(b[1..])
  }

  lemma Scaled(x: nat, p: nat)
    ensures x * (256 * p) == 256 * (x * p)
  {
  }

  lemma {:induction false} SpelledLast(b: string, c: char)
    ensures Spelled(b + [c]) == 256 * Spelled(b) + c as int
  {
    if |b| == 0 {
      assert (b + [c])[1..] == [];
      assert Spelled([]) == 0 && Pow256(0) == 1;
    } else {
      assert (b + [c])[1..] == b[1..] + [c];
      SpelledLast(b[1..], c);
      assert Pow256(|b|) == 256 * Pow256(|b| - 1);
      Scaled(b[0] as int, Pow256(|b| - 1));
    }
  }

  /** The bytes spell the number, most significant first. */
  lemma {:induction false} BigEndianSpells(n: nat, width: nat)
    requires n < Pow256(width)
    ensures Spelled(BigEndian(n, width)) == n
  {
    if width > 0 {
      assert n / 256 < Pow256(width - 1);
      BigEndianSpells(n / 256, width - 1);
      SpelledLast(BigEndian(n / 256, width - 1), (n % 256) as char);
    }
  }

  lemma AppendInjective(a: string, b: string, c: string, d: string)
    requires a + b == c + d && |a| == |c|
    ensures a == c && b == d
  {
    assert a == (a + b)[..|a|] && c == (c + d)[..|c|];
    assert b == (a + b)[|a|..] && d == (c + d)[|c|..];
  }

  const TWO_256: int := 0x1_0000_0000_0000_0000_0000_0000_0000_0000_0000_0000_0000_0000_0000_0000_0000_0000

  function WordSize(): nat {
    32
  }

  lemma FourBytes(n: nat)
    ensures Pow256(n + 4) == 0x1_0000_0000 * Pow256(n)
  {
    assert Pow256(n + 2) == 0x1_0000 * Pow256(n);
  }

  lemma PowWord()
    ensures Pow256(WordSize()) == TWO_256
  {
    assert Pow256(0) == 1;
    hide Pow256;
    FourBytes(0);
    FourBytes(4);
    FourBytes(8);
    FourBytes(12);
    FourBytes(16);
    FourBytes(20);
    FourBytes(24);
    FourBytes(28);
  }

  /** `math.U256Bytes`: the two's complement 256-bit word of any integer. */
  function U256Bytes(x: int): Word {
    BigEndian(x % TWO_256, WordSize())
  }

  /** A word spells its integer modulo 2^256. */
  lemma WordSpells(x: int)
    ensures Spelled(U256Bytes(x)) == x % 0x1_0000_0000_0000_0000_0000_0000_0000_0000_0000_0000_0000_0000_0000_0000_0000_0000
  {
    PowWord();
    BigEndianSpells(x % TWO_256, WordSize());
  }

  lemma U256Injective(x: int, y: int)
    requires U256Bytes(x) == U256Bytes(y)
    ensures x % TWO_256 == y % TWO_256
  {
    PowWord();
    BigEndianInjective(x % TWO_256, y % TWO_256, WordSize());
  }

  type int64 = n: int | -0x8000_0000_0000_0000 <= n < 0x8000_0000_0000_0000

  /** Equal words of two 64-bit integers mean equal integers. */
  lemma WordOfInt64Injective(x: int64, y: int64)
    requires U256Bytes(x) == U256Bytes(y)
    ensures x == y
  {
    U256Injective(x, y);
    var m := TWO_256;
    assert x % m == if x >= 0 then x else x + m by { SmallMod(x, m); }
    assert y % m == if y >= 0 then y else y + m by { SmallMod(y, m); }
  }

  lemma SmallMod(x: int, m: int)
    requires m > 0 && -m < x < m
    ensures x % m == if x >= 0 then x else x + m
  {
    if x < 0 {
      assert x == (-1) * m + (x + m);
    }
  }

  // ---------------------------------------------------------------- hexadecimal

  function HexDigit(n: nat): char
    requires n < 16
  {
    "0123456789abcdef"[n]
  }

  lemma HexDigitInjective(m: nat, n: nat)
    requires m < 16 && n < 16 && HexDigit(m) == HexDigit(n)
    ensures m == n
  {
  }

  function Hex(b: Bytes): (s: string)
    ensures |s| == 2 * |b|
  {
    if |b| == 0 then []
    else
      var rest: Bytes := b[1..];
      [HexDigit(b[0] as int / 16), HexDigit(b[0] as int % 16)] + Hex(rest)
  }

  /** Each byte becomes two digits, the high one first. */
  lemma {:induction false} HexAt(b: Bytes, i: nat)
    requires i < |b|
    ensures Hex(b)[2 * i] == "0123456789abcdef"[b[i] as int / 16]
    ensures Hex(b)[2 * i + 1] == "0123456789abcdef"[b[i] as int % 16]
    decreases |b|
  {
    if i > 0 {
      var rest: Bytes := b[1..];
      HexAt(rest, i - 1);
      assert Hex(b)[2..] == Hex(rest);
      assert Hex(b)[2 * i] == Hex(rest)[2 * (i - 1)] && Hex(b)[2 * i + 1] == Hex(rest)[2 * (i - 1) + 1];
    }
  }

  lemma {:induction false} HexInjective(a: Bytes, b: Bytes)
    requires Hex(a) == Hex(b)
    ensures a == b
    decreases |a|
  {
    if |a| == 0 {
      assert |b| == 0;
    } else {
      var ra: Bytes, rb: Bytes := a[1..], b[1..];
      assert Hex(a)[2..] == Hex(ra) && Hex(b)[2..] == Hex(rb);
      HexInjective(ra, rb);
      assert Hex(a)[0] == HexDigit(a[0] as int / 16) && Hex(b)[0] == HexDigit(b[0] as int / 16);
      assert Hex(a)[1] == HexDigit(a[0] as int % 16) && Hex(b)[1] == HexDigit(b[0] as int % 16);
      HexDigitInjective(a[0] as int / 16, b[0] as int / 16);
      HexDigitInjective(a[0] as int % 16, b[0] as int % 16);
      assert a[0] == b[0];
      assert a == [a[0]] + a[1..] && b == [b[0]] + b[1..];
    }
  }

  // ---------------------------------------------------------------- decimal integers

  predicate Digits(s: string) {
    |s| > 0 && forall i :: 0 <= i < |s| ==> '0' <= s[i] <= '9'
  }

  function Value(s: string): nat
    requires forall i :: 0 <= i < |s| ==> '0' <= s[i] <= '9'
  {
    if |s| == 0 then 0 else 10 * Value(s[..|s| - 1]) + (s[|s| - 1] as int - '0' as int)
  }

  /** `big.Int.SetString(s, 10)`: an optional sign, then digits. */
  function ParseInt(s: string): Option<int> {
    if Digits(s) then Some(Value(s))
    else if |s| > 0 && s[0] == '+' && Digits(s[1..]) then Some(Value(s[1..]))
    else if |s| > 0 && s[0] == '-' && Digits(s[1..]) then Some(0 - Value(s[1..]))
    else None
  }

  function DigitChar(d: nat): (c: char)
    requires d < 10
    ensures '0' <= c <= '9' && c as int == '0' as int + d
  {
    "0123456789"[d]
  }

  /** A number in decimal, without leading zeros. */
  function Decimal(n: nat): (s: string)
    ensures Digits(s)
  {
    if n < 10 then [DigitChar(n)] else Decimal(n / 10) + [DigitChar(n % 10)]
  }

  function Zeros(k: nat): (s: string)
    ensures |s| == k && forall i :: 0 <= i < k ==> s[i] == '0'
  {
    seq(k, _ => '0')
  }

  lemma ValueAppend(s: string, c: char)
    requires forall i :: 0 <= i < |s| ==> '0' <= s[i] <= '9'
    requires '0' <= c <= '9'
    ensures forall i :: 0 <= i < |s + [c]| ==> '0' <= (s + [c])[i] <= '9'
    ensures Value(s + [c]) == 10 * Value(s) + (c as int - '0' as int)
  {
    assert (s + [c])[..|s|] == s;
  }

  lemma {:induction false} ZerosValue(k: nat)
    ensures Value(Zeros(k)) == 0
  {
    if k > 0 {
      assert Zeros(k) == Zeros(k - 1) + ['0'];
      ZerosValue(k - 1);
      ValueAppend(Zeros(k - 1), '0');
    }
  }

  lemma {:induction false} DecimalValue(k: nat, n: nat)
    ensures Digits(Zeros(k) + Decimal(n))
    ensures Value(Zeros(k) + Decimal(n)) == n
    decreases n
  {
    if n < 10 {
      ZerosValue(k);
      ValueAppend(Zeros(k), DigitChar(n));
    } else {
      DecimalValue(k, n / 10);
      ValueAppend(Zeros(k) + Decimal(n / 10), DigitChar(n % 10));
      hide Value, Zeros;
      assert Zeros(k) + Decimal(n) == Zeros(k) + Decimal(n / 10) + [DigitChar(n % 10)];
    }
  }

  lemma DecimalAppend(n: nat, d: nat)
    requires n > 0 && d < 10
    ensures Decimal(10 * n + d) == Decimal(n) + [DigitChar(d)]
  {
    assert (10 * n + d) / 10 == n && (10 * n + d) % 10 == d;
  }

  lemma OneDigit(d: nat)
    requires d < 10
    ensures Decimal(d) == [DigitChar(d)] && Value([DigitChar(d)]) == d
  {
    ValueAppend([], DigitChar(d));
    assert [] + [DigitChar(d)] == [DigitChar(d)];
  }

  lemma DigitsStep(init: string, d: nat, k: nat, v: nat) returns (k': nat)
    requires d < 10 && init == Zeros(k) + Decimal(v)
    ensures init + [DigitChar(d)] == Zeros(k') + Decimal(10 * v + d)
  {
    if v == 0 {
      k' := k + 1;
      assert Decimal(0) == ['0'] && Decimal(d) == [DigitChar(d)];
      assert Zeros(k') == Zeros(k) + ['0'];
    } else {
      k' := k;
      DecimalAppend(v, d);
      hide Decimal, Zeros, DigitChar;
    }
  }

  /** Every string of digits is a number in decimal behind some zeros. */
  lemma {:induction false} DigitsAreDecimal(s: string) returns (k: nat)
    requires Digits(s)
    ensures s == Zeros(k) + Decimal(Value(s))
  {
    var init, c := s[..|s| - 1], s[|s| - 1];
    var d: nat := c as int - '0' as int;
    assert s == init + [c] && c == DigitChar(d);
    OneDigit(d);
    ValueAppend(init, c);
    if init == [] {
      k := 0;
      assert s == [c] && Zeros(0) == [];
      hide *;
    } else {
      var j := DigitsAreDecimal(init);
      k := DigitsStep(init, d, j, Value(init));
      hide *;
    }
  }

  /** A decimal number behind any zeros and an optional sign. */
  predicate Numeral(s: string, k: nat, n: nat) {
    var t := Zeros(k) + Decimal(n);
    s == t || s == ['+'] + t || s == ['-'] + t
  }

  /** Amounts are read in base ten: a numeral is read as its number, negative behind a minus, */
  lemma ParseDecimal(s: string, k: nat, n: nat)
    requires Numeral(s, k, n)
    ensures ParseInt(s) == Some(if s[0] == '-' then -(n as int) else n as int)
  {
    var t := Zeros(k) + Decimal(n);
    DecimalValue(k, n);
    hide Value, Decimal, Zeros;
    assert s != t ==> s[1..] == t;
  }

  lemma ParsedIsNumeral(s: string) returns (k: nat, n: nat)
    requires ParseInt(s).Some?
    ensures Numeral(s, k, n)
  {
    hide Value, Decimal, Zeros;
    var t := if Digits(s) then s else s[1..];
    assert s == t || s == ['+'] + t || s == ['-'] + t;
    assert Digits(t);
    k := DigitsAreDecimal(t);
    n := Value(t);
  }

  /** and nothing else is read as a number. */
  lemma ParsedExactly(s: string)
    ensures ParseInt(s).Some? <==> exists k: nat, n: nat :: Numeral(s, k, n)
  {
    hide *;
    if ParseInt(s).Some? {
      var k, n := ParsedIsNumeral(s);
    }
    if k: nat, n: nat :| Numeral(s, k, n) {
      ParseDecimal(s, k, n);
    }
  }

  // ---------------------------------------------------------------- joining and splitting

  predicate CommaFree(s: string) {
    ',' !in s
  }

  function Join(parts: seq<string>): string {
    if parts == [] then ""
    else if |parts| == 1 then parts[0]
    else parts[0] + "," + Join(parts[1..])
  }

  function Comma(s: string): (i: nat)
    ensures i <= |s| && CommaFree(s[..i])
    ensures i < |s| ==> s[i] == ','
    ensures forall j :: 0 <= j < i ==> s[j] != ','
  {
    if s == "" || s[0] == ',' then 0
    else
      var i := 1 + Comma(s[1..]);
      assert s[..i] == [s[0]] + s[1..][..i - 1];
      i
  }

  /** `strings.Split(s, ",")`. */
  function Split(s: string): (parts: seq<string>)
    ensures parts != [] && forall p :: p in parts ==> CommaFree(p)
    decreases |s|
  {
    var i := Comma(s);
    if i == |s| then
      assert s[..i] == s;
      [s]
    else [s[..i]] + Split(s[i + 1..])
  }

  lemma CommaAfter(p: string, rest: string)
    requires CommaFree(p)
    ensures Comma(p) == |p|
    ensures Comma(p + "," + rest) == |p|
  {
    var s := p + "," + rest;
    assert s[|p|] == ',';
    assert forall i :: 0 <= i < |p| ==> s[i] == p[i] && p[i] in p;
  }

  lemma {:induction false} SplitJoin(parts: seq<string>)
    requires parts != [] && forall p :: p in parts ==> CommaFree(p)
    ensures Split(Join(parts)) == parts
  {
    if |parts| == 1 {
      CommaAfter(parts[0], "");
    } else {
      var s := Join(parts);
      CommaAfter(parts[0], Join(parts[1..]));
      assert s[..|parts[0]|] == parts[0] && s[|parts[0]| + 1..] == Join(parts[1..]);
      assert forall p :: p in parts[1..] ==> p in parts;
      SplitJoin(parts[1..]);
    }
  }

  lemma JoinedWithCommas(a: string, b: string)
    ensures Join([a, b]) == a + "," + b
  {
    assert [a, b][1..] == [b];
  }

  /** Joining undoes splitting, always. */
  lemma {:induction false} JoinSplit(s: string)
    ensures Join(Split(s)) == s
    decreases |s|
  {
    var i := Comma(s);
    if i < |s| {
      var rest := s[i + 1..];
      JoinSplit(rest);
      assert Split(s)[1..] == Split(rest);
      assert s == s[..i] + "," + rest;
    }
  }

  /** Splitting undoes joining exactly for non-empty lists of comma-free strings. */
  lemma SplitJoinExactly(parts: seq<string>)
    ensures Split(Join(parts)) == parts <==> parts != [] && forall p :: p in parts ==> CommaFree(p)
  {
    if parts != [] && forall p :: p in parts ==> CommaFree(p) {
      SplitJoin(parts);
    }
  }
}
