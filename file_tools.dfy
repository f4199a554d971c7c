// The hex encoding FileTools uses to print a SHA-256 digest.
module FileTools {

  /** A Java byte: signed, eight bits. */
  type JByte = b: int | -128 <= b < 128

  /** `0xff & b`: the byte read as unsigned. */
  function Unsigned(b: JByte): (u: int)
    ensures 0 <= u < 256
    ensures u % 256 == b % 256
  {
    if b < 0 then b + 256 else b
  }

  predicate IsHexDigit(c: char)
  {
    '0' <= c <= '9' || 'a' <= c <= 'f'
  }

  /** The lowercase hex digit for a value below 16. */
  function HexDigit(d: int): (c: char)
    requires 0 <= d < 16
    ensures IsHexDigit(c)
  {
    if d < 10 then ('0' as int + d) as char else ('a' as int + d - 10) as char
  }

  /** The value of a hex digit (0 for any other character). */
  function HexValue(c: char): (d: int)
    ensures 0 <= d < 16
    ensures IsHexDigit(c) ==> HexDigit(d) == c
  {
    if '0' <= c <= '9' then c as int - '0' as int
    else if 'a' <= c <= 'f' then c as int - 'a' as int + 10
    else 0
  }

  lemma HexValueOfDigit(d: int)
    requires 0 <= d < 16
    ensures HexValue(HexDigit(d)) == d
  {
  }

  /** Integer.toHexString for a non-negative value: lowercase digits, no
      leading zeros. */
  function ToHexString(n: nat): (r: string)
    ensures |r| >= 1 && forall i :: 0 <= i < |r| ==> IsHexDigit(r[i])
    ensures |r| == 1 <==> n < 16
    ensures n < 256 ==> |r| <= 2
    decreases n
  {
    if n < 16 then [HexDigit(n)] else ToHexString(n / 16) + [HexDigit(n % 16)]
  }

  /** The two characters a byte becomes. */
  function Pair(b: JByte): (r: string)
    ensures |r| == 2 && IsHexDigit(r[0]) && IsHexDigit(r[1])
  {
    var u := Unsigned(b);
    [HexDigit(u / 16), HexDigit(u % 16)]
  }

  /** The digits Integer.toHexString gives, with a '0' put in front of a
      single digit, are the byte's two hex digits. */
  lemma PaddedIsPair(b: JByte)
    ensures var hex := ToHexString(Unsigned(b));
      (if |hex| == 1 then "0" + hex else hex) == Pair(b)
  {
    var u := Unsigned(b);
    if u >= 16 {
      assert ToHexString(u / 16) == [HexDigit(u / 16)];
    }
  }

  /** The hex text of a digest: two digits per byte, in order. */
  function Hex(hash: seq<JByte>): (r: string)
    ensures |r| == 2 * |hash|
    decreases |hash|
  {
    if |hash| == 0 then "" else Hex(hash[..|hash| - 1]) + Pair(hash[|hash| - 1])
  }

  /** The hex text holds only lowercase hex digits. */
  lemma {:induction false} HexIsText(hash: seq<JByte>)
    ensures IsHexText(Hex(hash))
    decreases |hash|
  {
    if |hash| > 0 {
      var n := |hash| - 1;
      HexIsText(hash[..n]);
      var a, p := Hex(hash[..n]), Pair(hash[n]);
      assert forall k :: |a| <= k < |a| + 2 ==> (a + p)[k] == p[k - |a|];
    }
  }

  /** Byte i is at characters 2i and 2i+1. */
  lemma {:induction false} HexAt(hash: seq<JByte>)
    ensures forall i :: 0 <= i < |hash| ==> Hex(hash)[2 * i..2 * i + 2] == Pair(hash[i])
    decreases |hash|
  {
    if |hash| > 0 {
      var n := |hash| - 1;
      HexAt(hash[..n]);
      forall i | 0 <= i < |hash|
        ensures Hex(hash)[2 * i..2 * i + 2] == Pair(hash[i])
      {
        PairInConcat(Hex(hash[..n]), Pair(hash[n]), 2 * i);
        if i < n {
          assert hash[..n][i] == hash[i];
        }
      }
    }
  }

  /** The two characters at an even offset of a concatenation. */
  lemma PairInConcat(a: string, p: string, k: int)
    requires |p| == 2 && |a| % 2 == 0 && k % 2 == 0 && 0 <= k <= |a|
    ensures k < |a| ==> (a + p)[k..k + 2] == a[k..k + 2]
    ensures k == |a| ==> (a + p)[k..k + 2] == p
  {
  }

  /** Reads two hex digits back as a Java byte. */
  function ByteOf(hi: char, lo: char): (b: JByte)
  {
    var u := 16 * HexValue(hi) + HexValue(lo);
    if u >= 128 then u - 256 else u
  }

  predicate IsHexText(s: string)
  {
    |s| % 2 == 0 && forall k :: 0 <= k < |s| ==> IsHexDigit(s[k])
  }

  /** Decodes text pair by pair (a last odd character is dropped). */
  function Unhex(s: string): (r: seq<JByte>)
    ensures |r| == |s| / 2
    decreases |s|
  {
    if |s| < 2 then [] else Unhex(s[..|s| - 2]) + [ByteOf(s[|s| - 2], s[|s| - 1])]
  }

  lemma PairRoundTrip(b: JByte)
    ensures ByteOf(Pair(b)[0], Pair(b)[1]) == b
  {
    var u := Unsigned(b);
    HexValueOfDigit(u / 16);
    HexValueOfDigit(u % 16);
  }

  /** Decoding text with one more pair appended decodes that pair last. */
  lemma UnhexAppend(a: string, p: string)
    requires |p| == 2
    ensures Unhex(a + p) == Unhex(a) + [ByteOf(p[0], p[1])]
  {
    var s := a + p;
    assert s[..|s| - 2] == a;
    assert s[|s| - 2] == p[0] && s[|s| - 1] == p[1];
  }

  /** Decoding the hex text of a digest decodes its last byte last. */
  lemma DecodeLast(hash: seq<JByte>)
    requires |hash| > 0
    ensures Unhex(Hex(hash)) == Unhex(Hex(hash[..|hash| - 1])) + [hash[|hash| - 1]]
  {
    var n := |hash| - 1;
    var p := Pair(hash[n]);
    assert Hex(hash) == Hex(hash[..n]) + p;
    UnhexAppend(Hex(hash[..n]), p);
    PairRoundTrip(hash[n]);
  }

  /** Decoding the hex text gives back the digest. */
  lemma {:induction false} HexRoundTrip(hash: seq<JByte>)
    ensures Unhex(Hex(hash)) == hash
    decreases |hash|
  {
    if |hash| > 0 {
      HexRoundTrip(hash[..|hash| - 1]);
      DecodeLast(hash);
      SplitLast(hash);
    }
  }

  lemma SplitLast<T>(s: seq<T>)
    requires |s| > 0
    ensures s[..|s| - 1] + [s[|s| - 1]] == s
  {
  }

  /** bytesToHex: appends each byte's hex digits, zero-padded to two. */
  method BytesToHex(hash: seq<JByte>) returns (r: string)
    ensures r == Hex(hash)
  {
    r := "";
    var i := 0;
    while i < |hash|
      invariant 0 <= i <= |hash|
      invariant r == Hex(hash[..i])
    {
      var hex := ToHexString(Unsigned(hash[i]));
      PaddedIsPair(hash[i]);
      if |hex| == 1 {
        r := r + ['0'];
      }
      r := r + hex;
      assert hash[..i + 1][..i] == hash[..i];
      i := i + 1;
    }
    assert hash[..i] == hash;
  }
}
