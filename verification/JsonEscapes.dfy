/** Escapes in JSON strings: every code point, written as one or two `\u` escapes in either
    case of digits, is read as its UTF-8 bytes; and what the writer leaves unescaped. */
module JsonEscapes {
  import opened Wrappers
  import opened JsonText
  import opened Utf8

  // ---------------------------------------------------------------- hexadecimal digits

  function HexChar(d: nat, upper: bool): char
    requires d < 16
  {
    if d < 10 then ('0' as int + d) as char else ((if upper then 'A' else 'a') as int + (d - 10)) as char
  }

  /** Four digits for a number of 16 bits, each in either case. */
  function HexFour(n: nat, upper: seq<bool>): string
    requires n < 0x1_0000 && |upper| == 4
  {
    [HexChar(n / 0x1000, upper[0]), HexChar(n / 0x100 % 0x10, upper[1]), HexChar(n / 0x10 % 0x10, upper[2]),
     HexChar(n % 0x10, upper[3])]
  }

  lemma HexCharValue(d: nat, upper: bool)
    requires d < 16
    ensures IsHex(HexChar(d, upper)) && HexValue(HexChar(d, upper)) == d
  {
  }

  lemma FourDigits(n: nat)
    requires n < 0x1_0000
    ensures ((n / 0x1000 * 16 + n / 0x100 % 0x10) * 16 + n / 0x10 % 0x10) * 16 + n % 0x10 == n
  {
    var a, b := n / 0x10, n / 0x100;
    assert n == a * 16 + n % 0x10;
    assert a / 0x10 == b && a == b * 16 + a % 0x10;
    assert b / 0x10 == n / 0x1000 && b == n / 0x1000 * 16 + b % 0x10;
  }

  lemma HexFourRead(n: nat, upper: seq<bool>, rest: string)
    requires n < 0x1_0000 && |upper| == 4
    ensures HexQuad(HexFour(n, upper) + rest) == Some(n)
  {
    HexCharValue(n / 0x1000, upper[0]);
    HexCharValue(n / 0x100 % 0x10, upper[1]);
    HexCharValue(n / 0x10 % 0x10, upper[2]);
    HexCharValue(n % 0x10, upper[3]);
    FourDigits(n);
    hide HexChar, IsHex, HexValue;
  }

  // ---------------------------------------------------------------- code points

  /** Not one of those that only begin a pair. */
  predicate Scalar(cp: nat) {
    cp <= MAX_CODE_POINT && !(0xD800 <= cp <= 0xDBFF)
  }

  /** A code point as JSON text: beyond 16 bits by a pair of surrogates (section 7 of RFC 8259). */
  function UnicodeEscape(cp: nat, upper: seq<bool>): string
    requires Scalar(cp) && |upper| == 4
  {
    if cp < 0x1_0000 then "\\u" + HexFour(cp, upper)
    else
      "\\u" + HexFour(0xD800 + (cp - 0x1_0000) / 0x400, upper)
      + "\\u" + HexFour(0xDC00 + (cp - 0x1_0000) % 0x400, upper)
  }

  lemma PairIs(cp: nat)
    requires 0x1_0000 <= cp <= MAX_CODE_POINT
    ensures var high, low := 0xD800 + (cp - 0x1_0000) / 0x400, 0xDC00 + (cp - 0x1_0000) % 0x400;
      && 0xD800 <= high <= 0xDBFF && low < 0x1_0000 && 0x1_0000 + high % 0x400 * 0x400 + low % 0x400 == cp
  {
  }

  lemma PairRead(cp: nat, upper: seq<bool>, rest: string)
    requires 0x1_0000 <= cp <= MAX_CODE_POINT && |upper| == 4
    ensures var high, low := 0xD800 + (cp - 0x1_0000) / 0x400, 0xDC00 + (cp - 0x1_0000) % 0x400;
      CodePoint(HexFour(high, upper) + ("\\u" + (HexFour(low, upper) + rest))) == Some((cp, 10))
  {
    PairIs(cp);
    var high, low := 0xD800 + (cp - 0x1_0000) / 0x400, 0xDC00 + (cp - 0x1_0000) % 0x400;
    var tail := HexFour(low, upper) + rest;
    HexFourRead(high, upper, "\\u" + tail);
    HexFourRead(low, upper, rest);
    hide HexQuad;
    var s := HexFour(high, upper) + ("\\u" + tail);
    assert s[4] == '\\' && s[5] == 'u' && s[6..] == tail;
  }

  /** Any code point is read back from its escape. */
  lemma EscapeRead(cp: nat, upper: seq<bool>, rest: string)
    requires Scalar(cp) && |upper| == 4
    ensures Unescaped(UnicodeEscape(cp, upper) + rest) == Prefixed(CodePointToUTF8(cp), Unescaped(rest))
  {
    hide HexFour, CodePointToUTF8, CodePoint, Unescaped;
    if cp < 0x1_0000 {
      ShortRead(cp, upper, rest);
      var four := HexFour(cp, upper);
      assert UnicodeEscape(cp, upper) + rest == "\\u" + (four + rest);
      UnicodeRead(four + rest, cp, 4);
      assert (four + rest)[4..] == rest;
    } else {
      var high, low := 0xD800 + (cp - 0x1_0000) / 0x400, 0xDC00 + (cp - 0x1_0000) % 0x400;
      PairRead(cp, upper, rest);
      FourLong(high, upper);
      FourLong(low, upper);
      var pair := HexFour(high, upper) + ("\\u" + (HexFour(low, upper) + rest));
      assert UnicodeEscape(cp, upper) + rest == "\\u" + pair;
      UnicodeRead(pair, cp, 10);
      assert pair[10..] == rest;
    }
  }

  lemma UnicodeRead(s: string, cp: nat, n: nat)
    requires CodePoint(s) == Some((cp, n))
    ensures Unescaped("\\u" + s) == Prefixed(CodePointToUTF8(cp), Unescaped(s[n..]))
  {
    hide CodePoint, CodePointToUTF8;
    var t := "\\u" + s;
    assert t[1] == 'u' && t[2..] == s && t[2 + n..] == s[n..];
  }

  lemma FourLong(n: nat, upper: seq<bool>)
    requires n < 0x1_0000 && |upper| == 4
    ensures |HexFour(n, upper)| == 4
  {
  }

  lemma ShortRead(cp: nat, upper: seq<bool>, rest: string)
    requires Scalar(cp) && cp < 0x1_0000 && |upper| == 4
    ensures CodePoint(HexFour(cp, upper) + rest) == Some((cp, 4)) && |HexFour(cp, upper)| == 4
  {
    HexFourRead(cp, upper, rest);
    hide HexQuad;
  }

  function AllEscaped(cps: seq<nat>, upper: seq<bool>): string
    requires |upper| == 4 && forall k | 0 <= k < |cps| :: Scalar(cps[k])
  {
    if cps == [] then [] else UnicodeEscape(cps[0], upper) + AllEscaped(cps[1..], upper)
  }

  function AllEncoded(cps: seq<nat>): string {
    if cps == [] then [] else CodePointToUTF8(cps[0]) + AllEncoded(cps[1..])
  }

  /** So is any text of code points. */
  lemma {:induction false} AllRead(cps: seq<nat>, upper: seq<bool>)
    requires |upper| == 4 && forall k | 0 <= k < |cps| :: Scalar(cps[k])
    ensures Unescaped(AllEscaped(cps, upper)) == Some(AllEncoded(cps))
  {
    if cps != [] {
      hide UnicodeEscape, CodePointToUTF8, Unescaped;
      EscapeRead(cps[0], upper, AllEscaped(cps[1..], upper));
      AllRead(cps[1..], upper);
    }
  }

  lemma ShortEscape(c: char, rest: string)
    requires SimpleEscape(c).Some?
    ensures Unescaped(['\\', c] + rest) == Prefixed([SimpleEscape(c).value], Unescaped(rest))
  {
    var s := ['\\', c] + rest;
    assert s[1] == c && s[2..] == rest;
    hide SimpleEscape, CodePoint;
  }

  /** The short escapes: what may follow a backslash, and what it stands for. */
  lemma ShortEscapes(c: char, rest: string)
    ensures var meant := map['"' := '"', '\\' := '\\', '/' := '/', 'b' := 8 as char, 'f' := 12 as char,
                             'n' := '\n', 'r' := '\r', 't' := '\t'];
      if c in meant then Unescaped(['\\', c] + rest) == Prefixed([meant[c]], Unescaped(rest))
      else c != 'u' ==> Unescaped(['\\', c] + rest) == None
  {
    if SimpleEscape(c).Some? {
      ShortEscape(c, rest);
    } else {
      var s := ['\\', c] + rest;
      assert s[1] == c;
    }
    hide Unescaped;
  }

  lemma NoCodePoint(s: string)
    requires CodePoint(s) == None
    ensures Unescaped("\\u" + s) == None
  {
    var t := "\\u" + s;
    assert t[1] == 'u' && t[2..] == s;
    hide CodePoint;
  }

  /** A backslash at the end is refused, and so are fewer than four digits after a `u`. */
  lemma TooFewDigits(s: string)
    requires |s| < 4 || !IsHex(s[0]) || !IsHex(s[1]) || !IsHex(s[2]) || !IsHex(s[3])
    ensures Unescaped("\\u" + s) == None && Unescaped("\\") == None
  {
    NoCodePoint(s);
    hide IsHex;
  }

  /** The first half of a pair is refused without another escape after it. */
  lemma HalfPair(high: nat, upper: seq<bool>, s: string)
    requires |upper| == 4 && 0xD800 <= high <= 0xDBFF
    requires |s| < 6 || s[0] != '\\' || s[1] != 'u' || HexQuad(s[2..]).None?
    ensures Unescaped("\\u" + (HexFour(high, upper) + s)) == None
  {
    HexFourRead(high, upper, s);
    FourLong(high, upper);
    hide HexQuad, HexFour, Unescaped;
    HalfPoint(HexFour(high, upper), high, s);
    NoCodePoint(HexFour(high, upper) + s);
  }

  lemma HalfPoint(four: string, high: nat, s: string)
    requires |four| == 4 && HexQuad(four + s) == Some(high) && 0xD800 <= high <= 0xDBFF
    requires |s| < 6 || s[0] != '\\' || s[1] != 'u' || HexQuad(s[2..]).None?
    ensures CodePoint(four + s) == None
  {
    hide HexQuad;
    var all := four + s;
    if |s| >= 6 {
      assert all[4] == s[0] && all[5] == s[1] && all[6..] == s[2..];
    }
  }

  // ---------------------------------------------------------------- the bytes of a code point

  /** The number that one to four bytes of UTF-8 denote (section 3 of RFC 3629). */
  function Denotes(s: string): int {
    if |s| == 1 then s[0] as int
    else if |s| == 2 then (s[0] as int - 0xC0) * 0x40 + (s[1] as int - 0x80)
    else if |s| == 3 then ((s[0] as int - 0xE0) * 0x40 + (s[1] as int - 0x80)) * 0x40 + (s[2] as int - 0x80)
    else if |s| == 4 then
      (((s[0] as int - 0xF0) * 0x40 + (s[1] as int - 0x80)) * 0x40 + (s[2] as int - 0x80)) * 0x40 + (s[3] as int - 0x80)
    else -1
  }

  lemma TwoParts(cp: nat)
    requires cp <= 0x7FF
    ensures cp / 0x40 % 0x20 * 0x40 + cp % 0x40 == cp
  {
  }

  lemma ThreeParts(cp: nat)
    requires cp <= 0xFFFF
    ensures (cp / 0x1000 % 0x10 * 0x40 + cp / 0x40 % 0x40) * 0x40 + cp % 0x40 == cp
  {
    assert cp / 0x40 / 0x40 == cp / 0x1000;
  }

  lemma FourParts(cp: nat)
    requires cp <= MAX_CODE_POINT
    ensures ((cp / 0x4_0000 % 0x8 * 0x40 + cp / 0x1000 % 0x40) * 0x40 + cp / 0x40 % 0x40) * 0x40 + cp % 0x40 == cp
  {
    assert cp / 0x40 / 0x40 == cp / 0x1000 && cp / 0x1000 / 0x40 == cp / 0x4_0000;
  }

  /** A code point is written in the fewest bytes that hold it, and they denote it. */
  lemma EncodingDenotes(cp: nat)
    requires cp <= MAX_CODE_POINT
    ensures Denotes(CodePointToUTF8(cp)) == cp
    ensures |CodePointToUTF8(cp)| == if cp < 0x80 then 1 else if cp < 0x800 then 2 else if cp < 0x1_0000 then 3 else 4
  {
    if cp <= 0x7F {
    } else if cp <= 0x7FF {
      TwoParts(cp);
    } else if cp <= 0xFFFF {
      ThreeParts(cp);
    } else {
      FourParts(cp);
    }
  }

  // ---------------------------------------------------------------- what the writer leaves as it is

  /** A written string has no control character. */
  lemma {:induction false} WrittenClean(s: string)
    ensures forall c | c in EscapedAll(s) :: c as int >= 0x20
  {
    if s != [] {
      WrittenClean(s[1..]);
      EscapedClean(s[0]);
      hide Escaped;
    }
  }

  lemma EscapedClean(c: char)
    ensures forall x | x in Escaped(c) :: x as int >= 0x20
    ensures c as int >= 0x20 && c != '"' && c != '\\' ==> Escaped(c) == [c]
  {
  }

  /** Text without control characters, quotes and backslashes is written as it is. */
  lemma WrittenAsItIs(s: string)
    requires forall c | c in s :: c as int >= 0x20 && c != '"' && c != '\\'
    ensures EscapedAll(s) == s
  {
    forall c | c in s ensures Plain(c) {
      EscapedClean(c);
    }
    PlainQuoted(s);
  }
}
