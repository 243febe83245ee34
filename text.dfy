/** Character and string helpers: decimal digits, ASCII case, substrings. */
module Text {
  import opened Wrappers

  predicate IsDigit(c: char) { '0' <= c <= '9' }

  predicate AllDigits(s: string) { forall i :: 0 <= i < |s| ==> IsDigit(s[i]) }

  function DigitValue(c: char): (v: nat)
    requires IsDigit(c)
    ensures v < 10
  {
    c as int - '0' as int
  }

  function DigitChar(d: nat): (c: char)
    requires d < 10
    ensures IsDigit(c) && DigitValue(c) == d
  {
    ('0' as int + d) as char
  }

  function Pow10(n: nat): (r: nat)
    ensures r >= 1
  {
    if n == 0 then 1 else 10 * Pow10(n - 1)
  }

  /** The value of a non-empty string of decimal digits. */
  function ParseNat(s: string): (r: Option<nat>)
    ensures r.Some? <==> |s| > 0 && AllDigits(s)
    ensures r.Some? ==> r.value < Pow10(|s|)
  {
    if |s| == 0 || !IsDigit(s[|s| - 1]) then None
    else if |s| == 1 then Some(DigitValue(s[0]))
    else
      match ParseNat(s[..|s| - 1])
      case None => None
      case Some(v) => Some(10 * v + DigitValue(s[|s| - 1]))
  }

  /** `v` written with exactly `width` digits, zero-padded on the left. */
  function Pad(v: nat, width: nat): (s: string)
    ensures |s| == width && AllDigits(s)
  {
    if width == 0 then [] else Pad(v / 10, width - 1) + [DigitChar(v % 10)]
  }

  lemma {:induction false} ParsePad(v: nat, width: nat)
    requires 1 <= width && v < Pow10(width)
    ensures ParseNat(Pad(v, width)) == Some(v)
  {
    var s := Pad(v, width);
    assert s[..width - 1] == Pad(v / 10, width - 1);
    if width == 1 {
      assert v < 10;
    } else {
      ParsePad(v / 10, width - 1);
    }
  }

  /** Shortest decimal form of a natural number, as Python's `str`. */
  function NatToString(n: nat): (s: string)
    ensures |s| > 0 && AllDigits(s)
  {
    if n < 10 then [DigitChar(n)] else NatToString(n / 10) + [DigitChar(n % 10)]
  }

  lemma {:induction false} ParseNatToString(n: nat)
    ensures ParseNat(NatToString(n)) == Some(n)
  {
    if n >= 10 {
      var s := NatToString(n);
      assert s[..|s| - 1] == NatToString(n / 10);
      ParseNatToString(n / 10);
    }
  }

  /** Python's `str(i)` for an integer. */
  function IntToString(i: int): string {
    if i < 0 then "-" + NatToString(-i) else NatToString(i)
  }

  /** Decimal integer with an optional leading minus sign. */
  function ParseInt(s: string): (r: Option<int>)
    ensures r.Some? ==> |s| > 0
  {
    if |s| > 0 && s[0] == '-' then
      match ParseNat(s[1..])
      case None => None
      case Some(v) => Some(0 - v as int)
    else
      match ParseNat(s)
      case None => None
      case Some(v) => Some(v as int)
  }

  lemma ParseIntToString(i: int)
    ensures ParseInt(IntToString(i)) == Some(i)
  {
    if i < 0 {
      assert IntToString(i)[1..] == NatToString(-i);
      ParseNatToString(-i);
    } else {
      ParseNatToString(i);
    }
  }

  /** ASCII lower-casing of one character. */
  function LowerChar(c: char): char {
    if 'A' <= c <= 'Z' then (c as int + 32) as char else c
  }

  function Lower(s: string): (r: string)
    ensures |r| == |s| && forall i :: 0 <= i < |s| ==> r[i] == LowerChar(s[i])
  {
    if s == [] then [] else [LowerChar(s[0])] + Lower(s[1..])
  }

  predicate StartsWith(s: string, prefix: string) {
    |prefix| <= |s| && s[..|prefix|] == prefix
  }

  /** `sub` occurs somewhere in `s` (JavaScript `includes`, Python `in`). */
  predicate Contains(s: string, sub: string) {
    exists i | 0 <= i <= |s| :: StartsWith(s[i..], sub)
  }

  lemma ContainsAt(s: string, sub: string, i: nat)
    requires i + |sub| <= |s| && s[i..i + |sub|] == sub
    ensures Contains(s, sub)
  {
    assert StartsWith(s[i..], sub);
  }

  /** Python's `s.replace('Z', '+00:00')`: every `Z` becomes a UTC offset. */
  function ReplaceZ(s: string): (r: string)
    ensures forall i :: 0 <= i < |r| ==> r[i] != 'Z'
    ensures (forall i :: 0 <= i < |s| ==> s[i] != 'Z') ==> r == s
  {
    if s == [] then []
    else (if s[0] == 'Z' then "+00:00" else [s[0]]) + ReplaceZ(s[1..])
  }

  lemma {:induction false} ReplaceZConcat(x: string, y: string)
    ensures ReplaceZ(x + y) == ReplaceZ(x) + ReplaceZ(y)
  {
    if x != [] {
      assert (x + y)[1..] == x[1..] + y;
      ReplaceZConcat(x[1..], y);
    } else {
      assert x + y == y;
    }
  }

  /** A sequence without repetitions has as many distinct elements as positions. */
  lemma {:induction false} DistinctCard(names: seq<string>)
    requires forall i, j :: 0 <= i < j < |names| ==> names[i] != names[j]
    ensures |set i | 0 <= i < |names| :: names[i]| == |names|
  {
    if names != [] {
      var rest := names[1..];
      DistinctCard(rest);
      var s := set i | 0 <= i < |names| :: names[i];
      var t := set i | 0 <= i < |rest| :: rest[i];
      assert s == {names[0]} + t by {
        forall x | x in s ensures x in {names[0]} + t {
          var i :| 0 <= i < |names| && names[i] == x;
          if i > 0 { assert rest[i - 1] == x; }
        }
      }
      assert names[0] !in t;
    }
  }
}
