/** `parse`, which cuts a string into UTF-8 characters, and `checkStringForSql`, which
    doubles quotes. A `char` is a byte; whether the platform's `char` is signed decides
    what passes as a continuation byte. */
module Utf8Split {
  import opened Utf8

  function At(s: string, k: nat): int {
    if k < |s| then s[k] as int else 0
  }

  /** `(sin[k] ^ 0x80) < 0x40`: with a signed `char` every byte from 0x80 up is negative
      and passes. */
  predicate Continues(s: string, k: nat, signed: bool) {
    At(s, k) >= 0x80 && (signed || At(s, k) < 0xC0)
  }

  /** How many bytes from position 1 up to `n` continue. */
  predicate AllContinue(s: string, n: nat, signed: bool) {
    forall k | 1 <= k < n :: Continues(s, k, signed)
  }

  /** The size a leading byte asks for, and the least second byte it allows. */
  function Asked(c: int): (nat, int) {
    if c < 0x80 then (1, 0)
    else if c < 0xC2 then (0, 0)
    else if c < 0xE0 then (2, 0)
    else if c < 0xF0 then (3, if c >= 0xE1 then 0 else 0xA0)
    else if c < 0xF8 then (4, if c >= 0xF1 then 0 else 0x90)
    else if c < 0xFC then (5, if c >= 0xFD then 0 else 0x88)
    else if c < 0xFE then (6, if c >= 0xFD then 0 else 0x84)
    else (0, 0)
  }

  /** The size of the character in front, 0 if there is none. */
  function Size(s: string, signed: bool): (n: nat)
    ensures n <= |s|
  {
    var (n, least) := Asked(At(s, 0));
    if 0 < n <= |s| && AllContinue(s, n, signed) && At(s, 1) >= least then n else 0
  }

  // ---------------------------------------------------------------- what a character is

  /** The number that the bits of `n` bytes denote: those of the leading byte below its mark, and
      six of each other byte. */
  function Payload(s: string, n: nat): int
    requires 1 <= n <= |s|
  {
    if n == 1 then (if s[0] as int < 0x80 then s[0] as int else LeadBits(s[0] as int))
    else Payload(s, n - 1) * 0x40 + (s[n - 1] as int - 0x80)
  }

  function LeadBits(c: int): int {
    if c < 0xE0 then c - 0xC0 else if c < 0xF0 then c - 0xE0 else if c < 0xF8 then c - 0xF0
    else if c < 0xFC then c - 0xF8 else c - 0xFC
  }

  /** The leading byte announces `n` bytes. */
  predicate Leads(c: int, n: nat) {
    match n
    case 1 => 0 <= c < 0x80
    case 2 => 0xC0 <= c < 0xE0
    case 3 => 0xE0 <= c < 0xF0
    case 4 => 0xF0 <= c < 0xF8
    case 5 => 0xF8 <= c < 0xFC
    case 6 => 0xFC <= c < 0xFE
    case _ => false
  }

  /** The least number that needs `n` bytes. */
  function Least(n: nat): nat {
    if n <= 1 then 0 else if n == 2 then 0x80 else if n == 3 then 0x800 else if n == 4 then 0x1_0000
    else if n == 5 then 0x20_0000 else 0x400_0000
  }

  /** All bytes after the leading one continue it. */
  predicate Follows(s: string, n: nat)
    requires n <= |s|
  {
    forall k | 1 <= k < n :: 0x80 <= s[k] as int < 0xC0
  }

  lemma {:induction false} PayloadBounds(s: string, n: nat, m: nat)
    requires 2 <= m <= n <= |s| && Follows(s, n) && 0xC0 <= s[0] as int
    ensures Bits(s, m) <= Payload(s, m) < Bits(s, m) + Power64(m - 2)
  {
    assert 0x80 <= s[m - 1] as int < 0xC0;
    if m > 2 {
      PayloadBounds(s, n, m - 1);
      BitsNext(s, m);
      assert Payload(s, m) == Payload(s, m - 1) * 0x40 + (s[m - 1] as int - 0x80);
      assert Power64(m - 2) == 0x40 * Power64(m - 3);
      hide *;
    } else {
      assert Payload(s, 2) == Payload(s, 1) * 0x40 + (s[1] as int - 0x80);
      assert Payload(s, 1) == LeadBits(s[0] as int) && Power64(0) == 1;
      hide LeadBits, Power64, Payload;
    }
  }

  lemma BitsNext(s: string, m: nat)
    requires 3 <= m <= |s|
    ensures Bits(s, m) == 0x40 * Bits(s, m - 1)
  {
    Times64(LeadBits(s[0] as int) * 0x40 + (s[1] as int - 0x80), Power64(m - 3));
    assert Power64(m - 2) == 0x40 * Power64(m - 3);
    hide LeadBits, Power64;
  }

  lemma Times64(x: int, p: nat)
    ensures x * (0x40 * p) == 0x40 * (x * p)
  {
  }

  function Power64(n: nat): nat {
    if n == 0 then 1 else 0x40 * Power64(n - 1)
  }

  /** What the first two bytes contribute to the payload of `m`. */
  function Bits(s: string, m: nat): int
    requires 2 <= m <= |s|
  {
    (LeadBits(s[0] as int) * 0x40 + (s[1] as int - 0x80)) * Power64(m - 2)
  }

  /** With an unsigned `char` a character of up to four bytes is in front exactly when its leading
      byte announces them, the others continue it, and no fewer bytes would do. */
  lemma CharacterExactlyWhen(s: string, n: nat)
    requires 1 <= n <= 4
    ensures Size(s, false) == n <==>
      n <= |s| && Leads(At(s, 0), n) && Follows(s, n) && Payload(s, n) >= Least(n)
  {
    if n <= |s| && Leads(At(s, 0), n) && n >= 2 {
      ContinuesIs(s, n);
      if Follows(s, n) {
        PayloadBounds(s, n, n);
        Powers();
      }
      hide AllContinue, Follows;
      if n == 2 {
        assert Payload(s, 2) == Payload(s, 1) * 0x40 + (s[1] as int - 0x80);
      }
    }
  }

  lemma Powers()
    ensures Power64(0) == 1 && Power64(1) == 0x40 && Power64(2) == 0x1000 && Power64(3) == 0x4_0000
    ensures Power64(4) == 0x100_0000
  {
  }

  lemma ContinuesIs(s: string, n: nat)
    requires n <= |s|
    ensures AllContinue(s, n, false) <==> Follows(s, n)
  {
    forall k | 1 <= k < n ensures Continues(s, k, false) <==> 0x80 <= s[k] as int < 0xC0 {
    }
  }

  /** The obsolete forms: of six bytes alike; of five bytes the second must be 0x88 at least,
      whatever the leading byte, so some that are not overlong are refused as well. */
  lemma LongFormsExactlyWhen(s: string)
    ensures Size(s, false) == 6 <==> |s| >= 6 && Leads(At(s, 0), 6) && Follows(s, 6) && Payload(s, 6) >= Least(6)
    ensures Size(s, false) == 5 <==> |s| >= 5 && Leads(At(s, 0), 5) && Follows(s, 5) && s[1] as int >= 0x88
    ensures Size(s, false) <= 6
  {
    if |s| >= 5 && Leads(At(s, 0), 5) {
      ContinuesIs(s, 5);
    }
    if |s| >= 6 && Leads(At(s, 0), 6) {
      ContinuesIs(s, 6);
      if Follows(s, 6) {
        PayloadBounds(s, 6, 6);
        Powers();
      }
    }
    hide AllContinue, Follows, Payload, Bits;
  }

  datatype Splitting = Splitting(pieces: seq<string>, valid: bool)

  /** The characters up to the end, or up to the first place where there is none. */
  function Split(s: string, signed: bool): Splitting {
    if s == "" then Splitting([], true)
    else
      var n := Size(s, signed);
      if n == 0 then Splitting([], false)
      else
        var rest := Split(s[n..], signed);
        Splitting([s[..n]] + rest.pieces, rest.valid)
  }

  /** One test of a character of `n` bytes, as each case of the loop makes it. */
  method TestBytes(s: string, p: nat, n: nat, signed: bool) returns (ok: bool)
    requires p + n <= |s|
    ensures ok == AllContinue(s[p..], n, signed)
  {
    var k := 1;
    while k < n
      invariant 1 <= k && forall j | 1 <= j < k && j < n :: Continues(s[p..], j, signed)
    {
      assert At(s[p..], k) == s[p + k] as int;
      if !(s[p + k] as int >= 0x80 && (signed || (s[p + k] as int) < 0xC0)) {
        assert !Continues(s[p..], k, signed);
        return false;
      }
      k := k + 1;
    }
    return true;
  }

  method SizeAt(s: string, p: nat, signed: bool) returns (size: nat)
    requires p < |s|
    ensures size == Size(s[p..], signed) && p + size <= |s|
  {
    var n := |s| - p;
    var c, cc := s[p] as int, At(s, p + 1);
    assert At(s[p..], 0) == c && At(s[p..], 1) == cc;
    hide AllContinue, At;
    if c < 0x80 {
      return 1;
    }
    var least := 0;
    if c < 0xC2 {
      return 0;
    } else if c < 0xE0 {
      size := 2;
    } else if c < 0xF0 {
      size, least := 3, if c >= 0xE1 then 0 else 0xA0;
    } else if c < 0xF8 {
      size, least := 4, if c >= 0xF1 then 0 else 0x90;
    } else if c < 0xFC {
      size, least := 5, if c >= 0xFD then 0 else 0x88;
    } else if c < 0xFE {
      size, least := 6, if c >= 0xFD then 0 else 0x84;
    } else {
      return 0;
    }
    if n < size {
      return 0;
    }
    var ok := TestBytes(s, p, size, signed);
    if !ok || cc < least {
      return 0;
    }
  }

  lemma SplitAt(s: string, p: nat, signed: bool)
    requires p < |s|
    ensures var n := Size(s[p..], signed);
      if n == 0 then Split(s[p..], signed) == Splitting([], false)
      else
        var rest := Split(s[p + n..], signed);
        p + n <= |s| && Split(s[p..], signed) == Splitting([s[p..p + n]] + rest.pieces, rest.valid)
  {
    var n := Size(s[p..], signed);
    assert s[p..][n..] == s[p + n..] && s[p..][..n] == s[p..p + n];
  }

  lemma PieceMoves(pieces: seq<string>, e: string, rest: seq<string>)
    ensures pieces + ([e] + rest) == (pieces + [e]) + rest
  {
  }

  /** The pieces so far and those of the rest are those of the whole. */
  ghost predicate Cut(s: string, p: nat, pieces: seq<string>, signed: bool) {
    p <= |s| && Split(s, signed) == Splitting(pieces + Split(s[p..], signed).pieces, Split(s[p..], signed).valid)
  }

  lemma CutNext(s: string, p: nat, pieces: seq<string>, signed: bool)
    requires p < |s| && Cut(s, p, pieces, signed)
    ensures var n := Size(s[p..], signed);
      if n == 0 then Split(s, signed) == Splitting(pieces, false)
      else p + n <= |s| && Cut(s, p + n, pieces + [s[p..p + n]], signed)
  {
    hide Split, Size;
    SplitAt(s, p, signed);
    var n := Size(s[p..], signed);
    if n > 0 {
      PieceMoves(pieces, s[p..p + n], Split(s[p + n..], signed).pieces);
    } else {
      assert pieces + [] == pieces;
    }
  }

  /** `parse`. */
  method Parse(s: string, signed: bool) returns (pieces: seq<string>, valid: bool)
    ensures Splitting(pieces, valid) == Split(s, signed)
  {
    pieces, valid := [], true;
    var p := 0;
    assert s[0..] == s;
    assert Cut(s, 0, [], signed);
    while p < |s|
      invariant p <= |s| && Cut(s, p, pieces, signed)
    {
      hide Split, Size, Cut;
      CutNext(s, p, pieces, signed);
      var size := SizeAt(s, p, signed);
      if size == 0 {
        return pieces, false;
      }
      pieces := pieces + [s[p..p + size]];
      p := p + size;
    }
  }

  // ---------------------------------------------------------------- what the pieces are

  function Flatten(pieces: seq<string>): string {
    if pieces == [] then "" else pieces[0] + Flatten(pieces[1..])
  }

  /** The pieces of an accepted string are its bytes again, none left out; those of a
      refused one are a proper beginning of it. */
  lemma {:induction false} PiecesAreTheString(s: string, signed: bool)
    ensures var r := Split(s, signed); if r.valid then Flatten(r.pieces) == s else Flatten(r.pieces) < s
    decreases |s|
  {
    var n := Size(s, signed);
    if s != "" && n > 0 {
      PiecesAreTheString(s[n..], signed);
      assert s == s[..n] + s[n..];
      var rest := Split(s[n..], signed);
      assert ([s[..n]] + rest.pieces)[1..] == rest.pieces;
    }
  }

  function Encoded(cps: seq<nat>): seq<string> {
    seq(|cps|, k requires 0 <= k < |cps| => CodePointToUTF8(cps[k]))
  }

  /** A code point's encoding is one character, whatever follows. */
  lemma EncodedIsOneCharacter(cp: nat, rest: string, signed: bool)
    requires cp <= MAX_CODE_POINT
    ensures var e := CodePointToUTF8(cp); |e| > 0 && Size(e + rest, signed) == |e|
  {
    var e := CodePointToUTF8(cp);
    var s := e + rest;
    assert forall k | 0 <= k < |e| :: At(s, k) == e[k] as int;
    if cp > 0x7FF {
      LeadingBits(cp);
    }
    forall k | 1 <= k < |e| ensures Continues(s, k, signed) {
      assert At(s, k) == e[k] as int;
    }
  }

  lemma LeadingBits(cp: nat)
    requires 0x7FF < cp <= MAX_CODE_POINT
    ensures cp <= 0xFFFF ==> (cp / 0x1000 % 0x10 >= 1 || cp / 0x40 % 0x40 >= 0x20)
    ensures cp > 0xFFFF ==> (cp / 0x4_0000 % 0x8 >= 1 || cp / 0x1000 % 0x40 >= 0x10) && cp / 0x4_0000 <= 4
  {
    if cp <= 0xFFFF {
      assert cp / 0x1000 < 0x10;
      if cp < 0x1000 {
        assert cp / 0x40 < 0x40 && cp / 0x40 >= 0x20;
      }
    } else {
      assert cp / 0x4_0000 <= 4;
      if cp < 0x4_0000 {
        assert cp / 0x1000 < 0x40 && cp / 0x1000 >= 0x10;
      }
    }
  }

  /** Whatever the writers encode is cut into one piece for each code point. */
  lemma {:induction false} EncodedIsCutBack(cps: seq<nat>, signed: bool)
    requires forall k | 0 <= k < |cps| :: cps[k] <= MAX_CODE_POINT
    ensures Split(Flatten(Encoded(cps)), signed) == Splitting(Encoded(cps), true)
  {
    if cps != [] {
      var e, rest := CodePointToUTF8(cps[0]), Flatten(Encoded(cps[1..]));
      EncodedIsCutBack(cps[1..], signed);
      assert Encoded(cps)[1..] == Encoded(cps[1..]);
      assert Flatten(Encoded(cps)) == e + rest;
      EncodedIsOneCharacter(cps[0], rest, signed);
      assert (e + rest)[..|e|] == e && (e + rest)[|e|..] == rest;
      assert Encoded(cps) == [e] + Encoded(cps[1..]);
    }
  }

  /** Code points beyond the last one are written as nothing, so no piece stands for them. */
  lemma BeyondIsNothing(cp: nat)
    requires cp > MAX_CODE_POINT
    ensures CodePointToUTF8(cp) == "" && Split(CodePointToUTF8(cp), true).pieces == []
  {
  }

  /** The two kinds of `char` see different characters in front exactly when the signed
      test sees one and among its bytes after the first is one of 0xC0 or more. */
  lemma SignednessMatters(s: string)
    ensures Size(s, true) != Size(s, false) <==> exists k :: 1 <= k < Size(s, true) && At(s, k) >= 0xC0
    ensures Size(s, true) != Size(s, false) ==> Size(s, false) == 0
  {
    var n := Asked(At(s, 0)).0;
    forall k ensures Continues(s, k, false) <==> Continues(s, k, true) && At(s, k) < 0xC0 {
    }
    hide At, Asked, Size;
  }

  /** After its first byte, none that begins a character or is in no character at all. */
  ghost predicate Clean(piece: string) {
    forall k | 1 <= k < |piece| :: piece[k] as int < 0xC0
  }

  lemma FirstPieceClean(s: string)
    ensures Clean(s[..Size(s, true)]) <==> Size(s, true) == Size(s, false)
  {
    SignednessMatters(s);
    var e := s[..Size(s, true)];
    assert forall k | 0 <= k < |e| :: At(s, k) == e[k] as int;
    hide Size;
  }

  /** A string is cut in the same way with both kinds of `char` exactly when every piece
      that the signed one cuts is clean. The signed cut is what the caller has at hand: the
      test is to look through its pieces. */
  lemma {:induction false} SameCutExactlyWhen(s: string)
    ensures Split(s, true) == Split(s, false) <==> forall e | e in Split(s, true).pieces :: Clean(e)
    decreases |s|
  {
    var n := Size(s, true);
    FirstPieceClean(s);
    SignednessMatters(s);
    if s != "" && n > 0 {
      var e, a, b := s[..n], Split(s[n..], true), Split(s[n..], false);
      SameCutExactlyWhen(s[n..]);
      hide Size, Clean;
      assert ([e] + a.pieces)[0] == e && forall x :: x in [e] + a.pieces <==> x == e || x in a.pieces;
      assert ([e] + a.pieces)[1..] == a.pieces && ([e] + b.pieces)[1..] == b.pieces;
    }
  }

  /** A two-byte character with a leading byte in its second place passes the signed test. */
  lemma SignedLetsMorePass(c: char, d: char, rest: string)
    requires 0xC2 <= c as int < 0xE0 && 0xC0 <= d as int < 0x100
    ensures Size([c, d] + rest, true) == 2 && Size([c, d] + rest, false) == 0
  {
    var s := [c, d] + rest;
    assert At(s, 0) == c as int && At(s, 1) == d as int;
    assert Continues(s, 1, true) && !Continues(s, 1, false);
  }

  // ---------------------------------------------------------------- quotes

  const QUOTE: char := '\''

  /** Every quote byte twice, every other byte once. */
  function Doubled(s: string): string {
    if s == "" then "" else (if s[0] == QUOTE then [QUOTE, QUOTE] else [s[0]]) + Doubled(s[1..])
  }

  function DoubledPieces(pieces: seq<string>): string {
    if pieces == [] then ""
    else (if pieces[0] == [QUOTE] then pieces[0] + pieces[0] else pieces[0]) + DoubledPieces(pieces[1..])
  }

  lemma {:induction false} DoubledAppend(a: string, b: string)
    ensures Doubled(a + b) == Doubled(a) + Doubled(b)
  {
    if a == "" {
      assert a + b == b;
    } else {
      assert (a + b)[1..] == a[1..] + b;
      DoubledAppend(a[1..], b);
      var first: string := if a[0] == QUOTE then [QUOTE, QUOTE] else [a[0]];
      assert first + (Doubled(a[1..]) + Doubled(b)) == (first + Doubled(a[1..])) + Doubled(b);
    }
  }

  lemma {:induction false} NoQuotes(s: string)
    requires QUOTE !in s
    ensures Doubled(s) == s
  {
    if s != "" {
      NoQuotes(s[1..]);
    }
  }

  /** A character is a quote, or has none in it. */
  lemma QuoteStandsAlone(s: string, signed: bool)
    requires Size(s, signed) > 0
    ensures var e := s[..Size(s, signed)]; Doubled(e) == if e == [QUOTE] then e + e else e
  {
    var n := Size(s, signed);
    var e := s[..n];
    if n == 1 {
      assert e == [s[0]] && [s[0]][1..] == "";
    } else {
      assert AllContinue(s, n, signed) && At(s, 0) >= 0x80;
      forall k | 0 <= k < n ensures e[k] != QUOTE {
        assert At(s, k) == e[k] as int;
        assert k > 0 ==> Continues(s, k, signed);
      }
      NoQuotes(e);
    }
  }

  lemma {:induction false} PiecesDoubled(s: string, signed: bool)
    requires Split(s, signed).valid
    ensures DoubledPieces(Split(s, signed).pieces) == Doubled(s)
    decreases |s|
  {
    if s != "" {
      var n := Size(s, signed);
      PiecesDoubled(s[n..], signed);
      QuoteStandsAlone(s, signed);
      assert s == s[..n] + s[n..];
      DoubledAppend(s[..n], s[n..]);
      var rest := Split(s[n..], signed);
      assert ([s[..n]] + rest.pieces)[1..] == rest.pieces;
    }
  }

  /** `checkStringForSql`. A C string ends at its first zero byte, so has none in it;
      `guest` is the name made up for a refused one. */
  method CheckStringForSql(s: string, signed: bool, guest: string) returns (out: string)
    requires '\0' !in s
    ensures out == if Split(s, signed).valid then Doubled(s) else guest
  {
    var pieces, valid := Parse(s, signed);
    if !valid {
      return guest;
    }
    PiecesDoubled(s, signed);
    out := "";
    var k := 0;
    while k < |pieces|
      invariant k <= |pieces| && out + DoubledPieces(pieces[k..]) == DoubledPieces(pieces)
    {
      AddPiece(out, pieces, k);
      out := out + pieces[k];
      if pieces[k] == [QUOTE] {
        out := out + pieces[k];
      }
      k := k + 1;
    }
  }

  lemma AddPiece(out: string, pieces: seq<string>, k: nat)
    requires k < |pieces|
    ensures out + DoubledPieces(pieces[k..]) ==
      (if pieces[k] == [QUOTE] then out + pieces[k] + pieces[k] else out + pieces[k]) + DoubledPieces(pieces[k + 1..])
  {
    assert pieces[k..][1..] == pieces[k + 1..];
    var e, rest := pieces[k], DoubledPieces(pieces[k + 1..]);
    assert out + (e + rest) == (out + e) + rest;
    assert out + ((e + e) + rest) == (out + e + e) + rest;
  }

  /** Different accepted strings stay different. */
  lemma {:induction false} DoublingIsInjective(a: string, b: string)
    requires Doubled(a) == Doubled(b)
    ensures a == b
  {
    assert a != "" ==> Doubled(a)[0] == a[0];
    assert b != "" ==> Doubled(b)[0] == b[0];
    if a != "" && b != "" {
      var n := if a[0] == QUOTE then 2 else 1;
      assert Doubled(a)[n..] == Doubled(a[1..]) && Doubled(b)[n..] == Doubled(b[1..]);
      DoublingIsInjective(a[1..], b[1..]);
      assert a == [a[0]] + a[1..] && b == [b[0]] + b[1..];
    }
  }
}
