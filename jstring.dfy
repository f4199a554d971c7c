/**
 * The java.lang.String and java.lang.Integer operations the plugin relies on,
 * with Java's own edge cases: indexOf("") is 0, lastIndexOf("") is the length,
 * trim drops every character up to U+0020, substring and parseInt fail
 * instead of returning garbage, split drops trailing empty pieces.
 */
module JavaString {
  import opened Wrappers
  import IntArith

  const MinInt: int := -0x8000_0000
  const MaxInt: int := 0x7fff_ffff

  /** `t` occurs in `s` starting at position `i`. */
  predicate OccursAt(s: string, t: string, i: int)
  {
    0 <= i && i + |t| <= |s| && s[i..i + |t|] == t
  }

  /** First occurrence of `t` at or after `from`, or -1. */
  function SearchUp(s: string, t: string, from: nat): (r: int)
    requires from <= |s|
    decreases |s| - from
    ensures r == -1 || (from <= r && OccursAt(s, t, r))
    ensures forall i :: from <= i && (r == -1 || i < r) ==> !OccursAt(s, t, i)
  {
    if OccursAt(s, t, from) then from
    else if from == |s| then -1
    else SearchUp(s, t, from + 1)
  }

  /** Last occurrence of `t` at or before `from`, or -1. */
  function SearchDown(s: string, t: string, from: int): (r: int)
    requires -1 <= from <= |s|
    decreases from + 1
    ensures r == -1 || (r <= from && OccursAt(s, t, r))
    ensures forall i :: i <= from && r < i ==> !OccursAt(s, t, i)
  {
    if from < 0 then -1
    else if OccursAt(s, t, from) then from
    else SearchDown(s, t, from - 1)
  }

  /** String.indexOf(String): the first occurrence, -1 iff there is none. */
  function IndexOf(s: string, t: string): (r: int)
    ensures r == -1 || OccursAt(s, t, r)
    ensures r == -1 <==> forall i :: !OccursAt(s, t, i)
    ensures forall i :: 0 <= i < r ==> !OccursAt(s, t, i)
  {
    SearchUp(s, t, 0)
  }

  /** Where String.indexOf(String, int) starts: a negative start counts as 0, one past the end as the end. */
  function ClampStart(from: int, n: nat): (r: nat)
    ensures r <= n
  {
    if from < 0 then 0 else if from > n then n else from
  }

  /** String.indexOf(String, int). */
  function IndexOfFrom(s: string, t: string, from: int): (r: int)
    ensures r == -1 || (ClampStart(from, |s|) <= r && OccursAt(s, t, r))
    ensures forall i :: from <= i && (r == -1 || i < r) ==> !OccursAt(s, t, i)
  {
    SearchUp(s, t, ClampStart(from, |s|))
  }

  /** A one-character search finds the character exactly when it is there. */
  lemma ContainsChar(s: string, c: char)
    ensures IndexOf(s, [c]) != -1 <==> c in s
  {
    if c in s {
      var k :| 0 <= k < |s| && s[k] == c;
      assert OccursAt(s, [c], k);
    }
    if IndexOf(s, [c]) != -1 {
      assert s[IndexOf(s, [c])] == c;
    }
  }

  /** Every character of a contained string occurs in the containing one. */
  lemma ContainedChars(s: string, t: string)
    ensures Contains(s, t) ==> forall k :: 0 <= k < |t| ==> t[k] in s
  {
    if Contains(s, t) {
      var i := IndexOf(s, t);
      forall k | 0 <= k < |t| ensures t[k] in s { assert s[i..i + |t|][k] == s[i + k]; }
    }
  }

  /** The first occurrence of a character that the prefix lacks is right after the prefix. */
  lemma {:induction false} CharAfterPrefix(p: string, c: char, rest: string)
    requires c !in p
    ensures IndexOf(p + [c] + rest, [c]) == |p|
  {
    var s := p + [c] + rest;
    assert OccursAt(s, [c], |p|);
    forall i | 0 <= i < |p|
      ensures !OccursAt(s, [c], i)
    {
      assert s[i..i + 1] == [p[i]];
    }
  }

  /** An occurrence with none before it is what indexOf finds. */
  lemma IndexOfIs(s: string, t: string, i: int)
    requires OccursAt(s, t, i)
    requires forall j :: 0 <= j < i ==> !OccursAt(s, t, j)
    ensures IndexOf(s, t) == i
  {
  }

  /** String.lastIndexOf(String): the last occurrence, -1 iff there is none. */
  function LastIndexOf(s: string, t: string): (r: int)
    ensures r == -1 || OccursAt(s, t, r)
    ensures r == -1 <==> forall i :: !OccursAt(s, t, i)
    ensures forall i :: r < i ==> !OccursAt(s, t, i)
  {
    SearchDown(s, t, |s|)
  }

  /** String.contains. */
  predicate Contains(s: string, t: string)
  {
    IndexOf(s, t) != -1
  }

  /** String.startsWith. */
  predicate StartsWith(s: string, p: string)
  {
    |p| <= |s| && s[..|p|] == p
  }

  /** String.endsWith. */
  predicate EndsWith(s: string, p: string)
  {
    |p| <= |s| && s[|s| - |p|..] == p
  }

  /** String.substring(b, e): None where Java throws StringIndexOutOfBoundsException. */
  function Substring(s: string, b: int, e: int): (r: Option<string>)
    ensures r.Some? <==> 0 <= b <= e <= |s|
    ensures r.Some? ==> |r.value| == e - b && OccursAt(s, r.value, b)
  {
    if 0 <= b <= e <= |s| then Some(s[b..e]) else None
  }

  /** String.substring(b). */
  function SubstringFrom(s: string, b: int): (r: Option<string>)
    ensures r.Some? <==> 0 <= b <= |s|
    ensures r.Some? ==> s == s[..b] + r.value
  {
    if 0 <= b <= |s| then Some(s[b..]) else None
  }

  /** The characters String.trim removes. */
  predicate IsTrimmed(c: char)
  {
    c <= ' '
  }

  function TrimStart(s: string): (r: string)
    ensures |r| <= |s| && r == s[|s| - |r|..]
    ensures r == [] || !IsTrimmed(r[0])
    ensures forall k :: 0 <= k < |s| - |r| ==> IsTrimmed(s[k])
  {
    if s != [] && IsTrimmed(s[0]) then TrimStart(s[1..]) else s
  }

  function TrimEnd(s: string): (r: string)
    ensures |r| <= |s| && r == s[..|r|]
    ensures r == [] || !IsTrimmed(r[|r| - 1])
    ensures forall k :: |r| <= k < |s| ==> IsTrimmed(s[k])
  {
    if s != [] && IsTrimmed(s[|s| - 1]) then TrimEnd(s[..|s| - 1]) else s
  }

  /** String.trim: the longest infix that neither starts nor ends with a character up to U+0020. */
  function Trim(s: string): (r: string)
    ensures |r| <= |s|
    ensures r == [] || (!IsTrimmed(r[0]) && !IsTrimmed(r[|r| - 1]))
    ensures (forall k :: 0 <= k < |s| ==> !IsTrimmed(s[k])) ==> r == s
  {
    TrimEnd(TrimStart(s))
  }

  /** String.split(""): one single-character string per character; "" splits to [""]. */
  function SplitChars(s: string): (r: seq<string>)
    ensures |r| == if s == "" then 1 else |s|
    ensures s != "" ==> forall i :: 0 <= i < |s| ==> r[i] == [s[i]]
  {
    if s == "" then [""] else seq(|s|, i requires 0 <= i < |s| => [s[i]])
  }

  /** Every piece of `s` between occurrences of `d`, empty pieces included. */
  function SplitAll(s: string, d: char): (r: seq<string>)
    ensures |r| >= 1
    ensures forall k :: 0 <= k < |r| ==> d !in r[k]
    decreases |s|
  {
    var i := IndexOf(s, [d]);
    if i == -1 then
      assert forall k :: 0 <= k < |s| ==> s[k..k + 1] == [s[k]] && !OccursAt(s, [d], k);
      [s]
    else
      assert forall k :: 0 <= k < i ==> s[k..k + 1] == [s[k]] && !OccursAt(s, [d], k);
      [s[..i]] + SplitAll(s[i + 1..], d)
  }

  function DropTrailingEmpty(xs: seq<string>): (r: seq<string>)
    ensures |r| <= |xs| && r == xs[..|r|]
    ensures r == [] || r[|r| - 1] != ""
    ensures forall k :: |r| <= k < |xs| ==> xs[k] == ""
  {
    if xs != [] && xs[|xs| - 1] == "" then DropTrailingEmpty(xs[..|xs| - 1]) else xs
  }

  /** String.split on a one-character, non-special delimiter: no match gives [s]; otherwise trailing empty pieces are dropped. */
  function Split(s: string, d: char): (r: seq<string>)
    ensures d !in s ==> r == [s]
    ensures forall k :: 0 <= k < |r| ==> d !in r[k]
  {
    if d !in s then [s] else DropTrailingEmpty(SplitAll(s, d))
  }

  /** Character.toUpperCase restricted to ASCII letters. */
  function UpperChar(c: char): char
  {
    if 'a' <= c <= 'z' then (c as int - 32) as char else c
  }

  function LowerChar(c: char): char
  {
    if 'A' <= c <= 'Z' then (c as int + 32) as char else c
  }

  function ToUpper(s: string): (r: string)
    ensures |r| == |s| && forall i :: 0 <= i < |s| ==> r[i] == UpperChar(s[i])
  {
    seq(|s|, i requires 0 <= i < |s| => UpperChar(s[i]))
  }

  function ToLower(s: string): (r: string)
    ensures |r| == |s| && forall i :: 0 <= i < |s| ==> r[i] == LowerChar(s[i])
  {
    seq(|s|, i requires 0 <= i < |s| => LowerChar(s[i]))
  }

  predicate IsDigit(c: char)
  {
    '0' <= c <= '9'
  }

  function DigitChar(d: nat): (c: char)
    requires d < 10
    ensures IsDigit(c) && c as int - '0' as int == d
  {
    ('0' as int + d) as char
  }

  /** Integer.toString of a non-negative value: decimal digits, no leading zero. */
  function NatToString(n: nat): (r: string)
    ensures |r| >= 1 && forall i :: 0 <= i < |r| ==> IsDigit(r[i])
    ensures AllDigits(r)
    ensures n >= 10 ==> r[0] != '0'
    decreases n
  {
    if n < 10 then
      assert [DigitChar(n)][..0] == [];
      [DigitChar(n)]
    else
      var r := NatToString(n / 10) + [DigitChar(n % 10)];
      assert r[..|r| - 1] == NatToString(n / 10);
      r
  }

  /** Integer.toString. */
  function IntToString(n: int): (r: string)
    ensures |r| >= 1
    ensures r[0] == '-' <==> n < 0
  {
    if n < 0 then "-" + NatToString(-n) else NatToString(n)
  }

  /** Java's int division, which truncates toward zero (Dafny's is Euclidean). */
  function JavaDiv(a: int, b: int): (q: int)
    requires b != 0
    ensures a >= 0 && b > 0 ==> q == a / b
    ensures (a >= 0) == (b > 0) || q == 0 ==> q >= 0
  {
    if (a >= 0) == (b > 0) then (if a >= 0 then a / b else (-a) / (-b))
    else if a >= 0 then -(a / (-b)) else -((-a) / b)
  }

  /** The int a Java int expression yields: the exact value wrapped into 32 bits. */
  function Int32(x: int): (r: int)
    ensures MinInt <= r <= MaxInt
    ensures (r - x) % 0x1_0000_0000 == 0
    ensures MinInt <= x <= MaxInt ==> r == x
  {
    (x - MinInt) % 0x1_0000_0000 + MinInt
  }

  /** Java's int remainder, which takes the sign of the dividend. */
  function JavaRem(a: int, b: int): (m: int)
    requires b != 0
    ensures a == JavaDiv(a, b) * b + m
    ensures a >= 0 && b > 0 ==> m == a % b
  {
    a - JavaDiv(a, b) * b
  }

  /** Java's remainder is zero exactly when Dafny's is: both say that b divides a. */
  lemma RemZero(a: int, b: int)
    requires b != 0
    ensures JavaRem(a, b) == 0 <==> a % b == 0
  {
    if JavaRem(a, b) == 0 {
      MultipleRemainder(a, b, JavaDiv(a, b));
    }
    if a % b == 0 {
      ExactJavaDiv(a, b);
    }
  }

  /** A multiple of b leaves Dafny's remainder 0, whatever the sign of b. */
  lemma MultipleRemainder(a: int, b: int, q: int)
    requires b != 0 && a == q * b
    ensures a % b == 0
  {
    if b > 0 {
      IntArith.DivModUnique(a, b, q, 0);
    } else {
      IntArith.DivModUnique(a, -b, -q, 0);
      IntArith.DivModUnique(a, -b, -(a / b), a % b);
    }
  }

  /** When b divides a, Java's truncating quotient is the exact one. */
  lemma ExactJavaDiv(a: int, b: int)
    requires b != 0 && a % b == 0
    ensures JavaDiv(a, b) == a / b && JavaRem(a, b) == 0
  {
    var q := a / b;
    assert a == q * b;
    if b < 0 && a < 0 {
      ExactNegated(-a, -b, q, a, b);
    } else if b < 0 {
      ExactNegated(a, -b, -q, a, b);
    } else if a < 0 {
      ExactNegated(-a, b, -q, a, b);
    }
  }

  /** The quotient of a multiple with the signs of dividend and divisor made positive. */
  lemma ExactNegated(x: int, p: int, q: int, a: int, b: int)
    requires p > 0 && (x == a || x == -a) && (p == b || p == -b) && a == (a / b) * b
    requires q == (if (x == a) == (p == b) then a / b else -(a / b))
    ensures x / p == q
  {
    assert x == q * p;
    IntArith.DivModUnique(x, p, q, 0);
  }

  predicate AllDigits(s: string)
  {
    s == [] || (AllDigits(s[..|s| - 1]) && IsDigit(s[|s| - 1]))
  }

  /** Each character of a run of digits is a digit. */
  lemma {:induction false} AllDigitsAt(s: string, i: nat)
    requires AllDigits(s) && i < |s|
    ensures IsDigit(s[i])
    decreases |s|
  {
    if i < |s| - 1 {
      AllDigitsAt(s[..|s| - 1], i);
    }
  }

  /** The value of a run of decimal digits. */
  function DigitsValue(s: string): nat
    requires AllDigits(s)
  {
    if s == [] then 0 else DigitsValue(s[..|s| - 1]) * 10 + (s[|s| - 1] as int - '0' as int)
  }

  lemma {:induction false} NatToStringValue(n: nat)
    ensures DigitsValue(NatToString(n)) == n
    decreases n
  {
    if n >= 10 {
      NatToStringValue(n / 10);
      var s := NatToString(n);
      assert s[..|s| - 1] == NatToString(n / 10);
    }
  }

  /** Distinct numbers print differently, so a numbered name is fresh when its number is. */
  lemma NatToStringInjective(a: nat, b: nat)
    ensures NatToString(a) == NatToString(b) ==> a == b
  {
    NatToStringValue(a);
    NatToStringValue(b);
  }

  /** Distinct ints print differently. */
  lemma IntToStringInjective(a: int, b: int)
    ensures IntToString(a) == IntToString(b) ==> a == b
  {
    if IntToString(a) == IntToString(b) {
      if a < 0 && b < 0 {
        assert IntToString(a)[1..] == NatToString(-a);
        assert IntToString(b)[1..] == NatToString(-b);
        NatToStringInjective(-a, -b);
      } else if a >= 0 && b >= 0 {
        NatToStringInjective(a, b);
      }
    }
  }

  /** Integer.parseInt: an optional sign and at least one digit, within 32 bits; None for NumberFormatException. */
  function ParseInt(s: string): (r: Option<int>)
    ensures r.Some? ==> MinInt <= r.value <= MaxInt
    ensures r.Some? ==> s != "" && (IsDigit(s[0]) || s[0] == '-' || s[0] == '+')
  {
    if s == "" then None
    else
      var body := if s[0] == '-' || s[0] == '+' then s[1..] else s;
      if body == "" || !AllDigits(body) then None
      else
        AllDigitsAt(body, 0);
        var magnitude: int := DigitsValue(body);
        var v := if s[0] == '-' then -magnitude else magnitude;
        if MinInt <= v <= MaxInt then Some(v) else None
  }

  /** parseInt reads back what toString prints. */
  lemma ParseIntToString(n: int)
    requires MinInt <= n <= MaxInt
    ensures ParseInt(IntToString(n)) == Some(n)
  {
    var s := IntToString(n);
    if n < 0 {
      NatToStringValue(-n);
      assert s[1..] == NatToString(-n);
    } else {
      NatToStringValue(n);
    }
  }
}
