/** Character classes and small string utilities that the rest of the model
    shares: Python's `str.isspace`, decimal rendering (`repr`/`%d`) and the
    `int(s)` / `int(s, 16)` conversions used on character references. */
module Text {
  import opened Wrappers

  /** Python's `str.isspace` for one character: the Unicode characters whose
      bidirectional class is WS, B or S, or whose category is Zs. */
  predicate IsSpace(c: char) {
    || ('\U{9}' <= c <= '\U{D}')
    || ('\U{1C}' <= c <= '\U{20}')
    || c == '\U{85}'
    || c == '\U{A0}'
    || c == '\U{1680}'
    || ('\U{2000}' <= c <= '\U{200A}')
    || c == '\U{2028}'
    || c == '\U{2029}'
    || c == '\U{202F}'
    || c == '\U{205F}'
    || c == '\U{3000}'
  }

  /** `str.isdigit`, restricted to the ASCII digits. */
  predicate IsDigit(c: char) {
    '0' <= c <= '9'
  }

  predicate IsHexDigit(c: char) {
    IsDigit(c) || 'a' <= c <= 'f' || 'A' <= c <= 'F'
  }

  predicate IsUpper(c: char) {
    'A' <= c <= 'Z'
  }

  /** `sub in s` on strings. */
  predicate Contains(s: string, sub: string) {
    exists i | 0 <= i <= |s| - |sub| :: OccursAt(s, sub, i)
  }

  predicate OccursAt(s: string, sub: string, i: nat) {
    i + |sub| <= |s| && s[i..i + |sub|] == sub
  }

  predicate StartsWith(s: string, prefix: string) {
    |prefix| <= |s| && s[..|prefix|] == prefix
  }

  /** `c not in s`, stated on indices. */
  predicate Lacks(s: string, c: char) {
    forall j :: 0 <= j < |s| ==> s[j] != c
  }

  /** Index of the first occurrence of `c` in `s`, or `|s|` when absent. */
  function IndexOf(s: string, c: char): (k: nat)
    ensures k <= |s|
    ensures forall j :: 0 <= j < k ==> s[j] != c
    ensures k < |s| ==> s[k] == c
  {
    if s == [] then 0
    else if s[0] == c then 0
    else
      IndexOf(s[1..], c) + 1
  }

  lemma {:induction false} IndexOfIs(s: string, c: char, k: nat)
    requires k < |s| && s[k] == c && forall j :: 0 <= j < k ==> s[j] != c
    ensures IndexOf(s, c) == k
  {
    if k > 0 {
      IndexOfIs(s[1..], c, k - 1);
    }
  }

  /** `part` occurs as a contiguous piece of `s`. */
  predicate IsInfix(part: string, s: string) {
    exists a: nat | a <= |s| :: OccursAt(s, part, a)
  }

  lemma InfixChar(part: string, s: string, i: nat)
    requires IsInfix(part, s) && i < |part|
    ensures part[i] in s
  {
    var a: nat :| a <= |s| && OccursAt(s, part, a);
    assert a + |part| <= |s|;
    assert s[a..a + |part|][i] == s[a + i];
  }

  /** `c * n` for a one-character string `c`. */
  function Repeat(c: char, n: nat): (r: string)
    ensures |r| == n
    ensures forall i :: 0 <= i < n ==> r[i] == c
  {
    if n == 0 then "" else Repeat(c, n - 1) + [c]
  }

  /** `' ' * n`. */
  function Spaces(n: nat): string {
    Repeat(' ', n)
  }

  /** ASCII lower-casing of a string. */
  function Lower(s: string): (r: string)
    ensures |r| == |s|
    ensures forall i :: 0 <= i < |s| ==> !IsUpper(r[i])
    ensures forall i :: 0 <= i < |s| && !IsUpper(s[i]) ==> r[i] == s[i]
  {
    if s == [] then []
    else
      var c := s[0];
      [if IsUpper(c) then (c as int + 32) as char else c] + Lower(s[1..])
  }

  /** Lower-casing works character by character. */
  lemma {:induction false} LowerAt(s: string, i: nat)
    requires i < |s|
    ensures Lower(s)[i] == if IsUpper(s[i]) then (s[i] as int + 32) as char else s[i]
  {
    if i > 0 {
      LowerAt(s[1..], i - 1);
    }
  }

  lemma {:induction false} LowerConcat(a: string, b: string)
    ensures Lower(a + b) == Lower(a) + Lower(b)
  {
    if a != [] {
      assert (a + b)[1..] == a[1..] + b;
      LowerConcat(a[1..], b);
    } else {
      assert a + b == b;
    }
  }

  /** Text without upper-case letters is its own lower-casing. */
  lemma LowerUnchanged(s: string)
    requires forall i :: 0 <= i < |s| ==> !IsUpper(s[i])
    ensures Lower(s) == s
  {
  }

  function DigitChar(d: nat): char
    requires d < 10
  {
    ('0' as int + d) as char
  }

  function DigitValue(c: char): nat
    requires IsDigit(c)
  {
    c as int - '0' as int
  }

  function HexValue(c: char): nat
    requires IsHexDigit(c)
  {
    if IsDigit(c) then DigitValue(c)
    else if 'a' <= c <= 'f' then c as int - 'a' as int + 10
    else c as int - 'A' as int + 10
  }

  /** The decimal rendering of a natural number, as `repr(n)` or `'%d' % n`. */
  function NatToString(n: nat): (r: string)
    ensures |r| > 0
    ensures forall i :: 0 <= i < |r| ==> IsDigit(r[i])
    ensures n < 10 <==> |r| == 1
  {
    if n < 10 then [DigitChar(n)] else NatToString(n / 10) + [DigitChar(n % 10)]
  }

  /** Value of a run of digits in the given base, most significant first. */
  function DigitsValue(s: string, base: nat): nat
    requires base == 10 || base == 16
    requires forall i :: 0 <= i < |s| ==> IsHexDigit(s[i])
  {
    if s == [] then 0
    else DigitsValue(s[..|s| - 1], base) * base + HexValue(s[|s| - 1])
  }

  predicate AllHexDigits(s: string) {
    forall i :: 0 <= i < |s| ==> IsHexDigit(s[i])
  }

  /** `int(s)` for the decimal strings it accepts, leading zeros included;
      any other string (empty, signed, surrounded by whitespace) is `None`. */
  function ParseDec(s: string): (r: Option<nat>)
    ensures r.Some? <==> |s| > 0 && forall i :: 0 <= i < |s| ==> IsDigit(s[i])
  {
    if |s| > 0 && forall i :: 0 <= i < |s| ==> IsDigit(s[i]) then
      Some(DigitsValue(s, 10))
    else
      None
  }

  /** The "0x" or "0X" that `int(s, 16)` allows in front of the digits. */
  predicate HasHexPrefix(s: string) {
    |s| >= 2 && s[0] == '0' && (s[1] == 'x' || s[1] == 'X')
  }

  /** `int(s, 16)` for the hexadecimal strings it accepts: digits of either
      case, optionally after a "0x" or "0X" prefix. */
  function ParseHex(s: string): (r: Option<nat>)
    ensures r.Some? <==>
              || (|s| > 0 && AllHexDigits(s))
              || (HasHexPrefix(s) && |s| > 2 && AllHexDigits(s[2..]))
  {
    var digits := if HasHexPrefix(s) then s[2..] else s;
    if |digits| > 0 && AllHexDigits(digits) then
      Some(DigitsValue(digits, 16))
    else
      None
  }

  /** `'0' * k`. */
  function Zeros(k: nat): string {
    Repeat('0', k)
  }

  /** Leading zeros do not change the value of a run of digits. */
  lemma {:induction false} LeadingZeros(k: nat, s: string, base: nat)
    requires base == 10 || base == 16
    requires AllHexDigits(s)
    ensures DigitsValue(Zeros(k) + s, base) == DigitsValue(s, base)
    decreases k + |s|
  {
    var t := Zeros(k) + s;
    if s == [] {
      if k > 0 {
        assert t[..|t| - 1] == Zeros(k - 1) + [];
        LeadingZeros(k - 1, [], base);
      }
    } else {
      assert t[..|t| - 1] == Zeros(k) + s[..|s| - 1];
      LeadingZeros(k, s[..|s| - 1], base);
    }
  }

  /** Decimal rendering and decimal parsing are inverse: the number shown is
      the number read back. */
  lemma {:induction false} ParseNatToString(n: nat)
    ensures ParseDec(NatToString(n)) == Some(n)
  {
    NatToStringValue(n);
  }

  lemma {:induction false} NatToStringValue(n: nat)
    ensures DigitsValue(NatToString(n), 10) == n
  {
    var s := NatToString(n);
    if n < 10 {
      assert s[..0] == [];
    } else {
      NatToStringValue(n / 10);
      assert s[..|s| - 1] == NatToString(n / 10);
    }
  }

  /** Distinct numbers render as distinct strings. */
  lemma NatToStringInjective(m: nat, n: nat)
    requires NatToString(m) == NatToString(n)
    ensures m == n
  {
    ParseNatToString(m);
    ParseNatToString(n);
  }

  /** Zero-padded decimal rendering parses back to the number. */
  lemma {:induction false} ParsePaddedDec(k: nat, n: nat)
    ensures ParseDec(Zeros(k) + NatToString(n)) == Some(n)
  {
    LeadingZeros(k, NatToString(n), 10);
    NatToStringValue(n);
  }

  /** Conversely every string `int` accepts is a zero-padded rendering of the
      number it yields; with `ParsePaddedDec` this pins `ParseDec` down. */
  lemma {:induction false} PaddedDecOf(s: string) returns (k: nat)
    requires ParseDec(s).Some?
    ensures s == Zeros(k) + NatToString(ParseDec(s).value)
    decreases |s|
  {
    if |s| > 1 && s[0] == '0' {
      var k' := PaddedDecOf(s[1..]);
      k := k' + 1;
      assert s == Zeros(1) + s[1..];
      LeadingZeros(1, s[1..], 10);
      assert Zeros(k) == "0" + Zeros(k');
    } else {
      k := 0;
      RenderDigits(s);
    }
  }

  /** A run of decimal digits without a superfluous leading zero is the
      rendering of its own value. */
  lemma {:induction false} RenderDigits(s: string)
    requires |s| > 0 && forall i :: 0 <= i < |s| ==> IsDigit(s[i])
    requires |s| == 1 || s[0] != '0'
    ensures NatToString(DigitsValue(s, 10)) == s
    decreases |s|
  {
    var p := s[..|s| - 1];
    if |s| == 1 {
      assert p == [];
    } else {
      RenderDigits(p);
      PositiveDigits(p);
      var v := DigitsValue(s, 10);
      assert v / 10 == DigitsValue(p, 10) && v % 10 == DigitValue(s[|s| - 1]);
      assert s == p + [s[|s| - 1]];
    }
  }

  lemma {:induction false} PositiveDigits(s: string)
    requires |s| > 0 && forall i :: 0 <= i < |s| ==> IsDigit(s[i])
    requires s[0] != '0'
    ensures DigitsValue(s, 10) >= 1
    decreases |s|
  {
    if |s| == 1 {
      assert s[..0] == [];
    } else {
      PositiveDigits(s[..|s| - 1]);
    }
  }

  function HexDigitChar(d: nat): char
    requires d < 16
  {
    if d < 10 then DigitChar(d) else ('a' as int + d - 10) as char
  }

  /** The lower-case hexadecimal rendering of a natural number, as `'%x' % n`. */
  function NatToHex(n: nat): (r: string)
    ensures |r| > 0
    ensures AllHexDigits(r)
  {
    if n < 16 then [HexDigitChar(n)] else NatToHex(n / 16) + [HexDigitChar(n % 16)]
  }

  lemma {:induction false} NatToHexValue(n: nat)
    ensures DigitsValue(NatToHex(n), 16) == n
  {
    var s := NatToHex(n);
    if n < 16 {
      assert s[..0] == [];
    } else {
      NatToHexValue(n / 16);
      assert s[..|s| - 1] == NatToHex(n / 16);
    }
  }

  /** Hexadecimal rendering and hexadecimal parsing are inverse, with or
      without leading zeros and a "0x"/"0X" prefix. */
  lemma {:induction false} ParseNatToHex(p: string, k: nat, n: nat)
    requires p == "" || p == "0x" || p == "0X"
    ensures ParseHex(p + Zeros(k) + NatToHex(n)) == Some(n)
  {
    var d := Zeros(k) + NatToHex(n);
    assert p + Zeros(k) + NatToHex(n) == p + d;
    assert AllHexDigits(d) by {
      ZerosHex(k, NatToHex(n));
    }
    assert DigitsValue(d, 16) == n by {
      LeadingZeros(k, NatToHex(n), 16);
      NatToHexValue(n);
    }
    ParseHexDigits(p, d);
  }

  lemma ZerosHex(k: nat, h: string)
    requires AllHexDigits(h)
    ensures AllHexDigits(Zeros(k) + h)
  {
    var d := Zeros(k) + h;
    forall i | 0 <= i < |d|
      ensures IsHexDigit(d[i])
    {
      if i >= k {
        assert d[i] == h[i - k];
      }
    }
  }

  /** A run of hexadecimal digits, bare or behind a prefix, reads as its
      value. */
  lemma ParseHexDigits(p: string, d: string)
    requires p == "" || p == "0x" || p == "0X"
    requires |d| > 0 && AllHexDigits(d)
    ensures ParseHex(p + d) == Some(DigitsValue(d, 16))
  {
    if p == "" {
      assert p + d == d;
      assert !HasHexPrefix(d) by {
        if |d| >= 2 {
          assert IsHexDigit(d[1]);
        }
      }
    } else {
      assert HasHexPrefix(p + d) by {
        assert (p + d)[0] == '0' && (p + d)[1] == p[1];
      }
      assert (p + d)[2..] == d;
    }
  }
}
