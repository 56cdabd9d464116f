/** The lexical level of the JSON library: string escapes and tokens. All
    functions work on the text still to be read and return what is left. */
module JsonText {
  import opened JsonNumber
  import opened Wrappers
  import opened Utf8

  ghost predicate Suffix(rest: string, s: string) {
    |rest| <= |s| && rest == s[|s| - |rest|..]
  }

  lemma SuffixTransitive(a: string, b: string, c: string)
    requires Suffix(a, b) && Suffix(b, c)
    ensures Suffix(a, c)
  {
  }

  lemma SuffixDrop(s: string, k: nat)
    requires k <= |s|
    ensures Suffix(s[k..], s)
  {
  }

  lemma SuffixOfTail(rest: string, s: string)
    requires s != [] && Suffix(rest, s[1..])
    ensures Suffix(rest, s)
  {
  }

  // ---------------------------------------------------------------- writing

  function HexDigit(d: nat): char
    requires d < 16
  {
    if d < 10 then DigitChar(d) else ('A' as int + d - 10) as char
  }

  /** The six-character escape of a character below 256, in upper case. */
  function HexEscape(c: char): string {
    "\\u00" + [HexDigit(c as int / 16 % 16), HexDigit(c as int % 16)]
  }

  const BACKSPACE: char := 8 as char
  const FORM_FEED: char := 12 as char

  function Escaped(c: char): string {
    if c == '"' then "\\\""
    else if c == '\\' then "\\\\"
    else if c == BACKSPACE then "\\b"
    else if c == FORM_FEED then "\\f"
    else if c == '\n' then "\\n"
    else if c == '\r' then "\\r"
    else if c == '\t' then "\\t"
    else if c as int <= 0x1F then HexEscape(c)
    else [c]
  }

  function EscapedAll(s: string): string {
    if s == [] then [] else Escaped(s[0]) + EscapedAll(s[1..])
  }

  function Quoted(s: string): string {
    "\"" + EscapedAll(s) + "\""
  }

  predicate Plain(c: char) {
    Escaped(c) == [c]
  }

  lemma {:induction false} PlainQuoted(s: string)
    requires forall c | c in s :: Plain(c)
    ensures EscapedAll(s) == s
  {
    if s != [] {
      assert Plain(s[0]);
      PlainQuoted(s[1..]);
      assert s == [s[0]] + s[1..];
    }
  }

  lemma {:induction false} EscapedAllAppend(s: string, c: char)
    ensures EscapedAll(s + [c]) == EscapedAll(s) + Escaped(c)
  {
    if s == [] {
      assert [c][1..] == [];
    } else {
      assert (s + [c])[1..] == s[1..] + [c];
      EscapedAllAppend(s[1..], c);
    }
  }

  /** `valueToQuotedStringN`: the shortcut for text without special characters
      and the escaping loop give the same result. */
  method ValueToQuotedString(s: string) returns (text: string)
    ensures text == Quoted(s)
  {
    if forall c | c in s :: Plain(c) {
      PlainQuoted(s);
      return "\"" + s + "\"";
    }
    var body := "";
    for k := 0 to |s|
      invariant body == EscapedAll(s[..k])
    {
      EscapedAllAppend(s[..k], s[k]);
      assert s[..k + 1] == s[..k] + [s[k]];
      body := body + Escaped(s[k]);
    }
    assert s[..|s|] == s;
    text := "\"" + body + "\"";
  }

  // ---------------------------------------------------------------- escapes

  predicate IsHex(c: char) {
    IsDigit(c) || 'a' <= c <= 'f' || 'A' <= c <= 'F'
  }

  function HexValue(c: char): nat
    requires IsHex(c)
  {
    if IsDigit(c) then DigitValue(c)
    else if 'a' <= c <= 'f' then c as int - 'a' as int + 10
    else c as int - 'A' as int + 10
  }

  /** `decodeUnicodeEscapeSequence`: four hexadecimal digits. */
  function HexQuad(s: string): Option<nat> {
    if |s| >= 4 && IsHex(s[0]) && IsHex(s[1]) && IsHex(s[2]) && IsHex(s[3])
    then Some(((HexValue(s[0]) * 16 + HexValue(s[1])) * 16 + HexValue(s[2])) * 16 + HexValue(s[3]))
    else None
  }

  /** `decodeUnicodeCodePoint`: the code point after `\u` and how many characters
      it takes. A high surrogate must be followed by a second escape, which is
      not checked to be a low surrogate. */
  function CodePoint(s: string): (r: Option<(nat, nat)>)
    ensures r.Some? ==> r.value.1 <= |s|
  {
    match HexQuad(s)
    case None => None
    case Some(high) =>
      if high < 0xD800 || high > 0xDBFF then Some((high, 4))
      else if |s| < 10 || s[4] != '\\' || s[5] != 'u' then None
      else
        match HexQuad(s[6..])
        case None => None
        case Some(low) => Some((0x1_0000 + high % 0x400 * 0x400 + low % 0x400, 10))
  }

  function SimpleEscape(c: char): Option<char> {
    if c == '"' || c == '/' || c == '\\' then Some(c)
    else if c == 'b' then Some(BACKSPACE)
    else if c == 'f' then Some(FORM_FEED)
    else if c == 'n' then Some('\n')
    else if c == 'r' then Some('\r')
    else if c == 't' then Some('\t')
    else None
  }

  function Prefixed(s: string, tail: Option<string>): Option<string> {
    match tail
    case None => None
    case Some(t) => Some(s + t)
  }

  /** `decodeString` on the text between the quotes. */
  function Unescaped(s: string): Option<string> {
    if s == [] || s[0] == '"' then Some([])
    else if s[0] != '\\' then Prefixed([s[0]], Unescaped(s[1..]))
    else if |s| == 1 then None
    else if SimpleEscape(s[1]).Some? then Prefixed([SimpleEscape(s[1]).value], Unescaped(s[2..]))
    else if s[1] != 'u' || CodePoint(s[2..]).None? then None
    else
      var (cp, n) := CodePoint(s[2..]).value;
      Prefixed(CodePointToUTF8(cp), Unescaped(s[2 + n..]))
  }

  lemma PrefixedTwice(a: string, b: string, t: Option<string>)
    ensures Prefixed(a + b, t) == Prefixed(a, Prefixed(b, t))
    ensures Prefixed("", t) == t
  {
    if t.Some? {
      assert (a + b) + t.value == a + (b + t.value);
      assert "" + t.value == t.value;
    }
  }

  /** `decodeString`: the loop over the token. */
  method DecodeString(s: string) returns (decoded: Option<string>)
    ensures decoded == Unescaped(s)
  {
    var current := 0;
    var text := "";
    PrefixedTwice("", "", Unescaped(s));
    assert s[0..] == s;
    while current != |s|
      invariant current <= |s|
      invariant Unescaped(s) == Prefixed(text, Unescaped(s[current..]))
      decreases |s| - current
    {
      ghost var left := s[current..];
      var c := s[current];
      current := current + 1;
      if c == '"' {
        break;
      } else if c == '\\' {
        if current == |s| {
          return None;
        }
        var escape := s[current];
        current := current + 1;
        assert left[2..] == s[current..];
        if SimpleEscape(escape).Some? {
          PrefixedTwice(text, [SimpleEscape(escape).value], Unescaped(s[current..]));
          text := text + [SimpleEscape(escape).value];
        } else if escape == 'u' {
          var cp := CodePoint(s[current..]);
          if cp.None? {
            return None;
          }
          assert left[2 + cp.value.1..] == s[current + cp.value.1..];
          PrefixedTwice(text, CodePointToUTF8(cp.value.0), Unescaped(s[current + cp.value.1..]));
          text := text + CodePointToUTF8(cp.value.0);
          current := current + cp.value.1;
        } else {
          return None;
        }
      } else {
        PrefixedTwice(text, [c], Unescaped(s[current..]));
        text := text + [c];
      }
    }
    assert text + [] == text;
    return Some(text);
  }

  // ---------------------------------------------------------------- tokens

  datatype Kind =
    | ObjectBegin | ObjectEnd | ArrayBegin | ArrayEnd | StringToken | NumberToken
    | TrueToken | FalseToken | NullToken | Separator | MemberSeparator
    | Comment | EndOfStream | ErrorToken

  /** A token with the text read for it and the text left after it. */
  datatype Token = Token(kind: Kind, lexeme: string, rest: string)

  predicate IsSpace(c: char) {
    c == ' ' || c == '\t' || c == '\r' || c == '\n'
  }

  function SkipSpaces(s: string): (rest: string)
    ensures Suffix(rest, s)
  {
    if s != [] && IsSpace(s[0]) then SkipSpaces(s[1..]) else s
  }

  function SkipDigits(s: string): (rest: string)
    ensures Suffix(rest, s)
  {
    if s != [] && IsDigit(s[0]) then SkipDigits(s[1..]) else s
  }

  /** Drops the first character if it is one of `chars`. */
  function SkipOneOf(s: string, chars: string): (rest: string)
    ensures Suffix(rest, s)
  {
    if s != [] && s[0] in chars then s[1..] else s
  }

  function SkipFraction(s: string): (rest: string)
    ensures Suffix(rest, s)
  {
    if s != [] && s[0] == '.' then
      SuffixOfTail(SkipDigits(s[1..]), s);
      SkipDigits(s[1..])
    else s
  }

  function SkipExponent(s: string): (rest: string)
    ensures Suffix(rest, s)
  {
    if s != [] && s[0] in "eE" then
      var c := SkipOneOf(s[1..], "+-");
      var d := SkipDigits(c);
      SuffixTransitive(d, c, s[1..]);
      SuffixOfTail(d, s);
      d
    else s
  }

  /** `readNumber`, after the first character. */
  function SkipNumber(s: string): (rest: string)
    ensures Suffix(rest, s)
  {
    var a := SkipDigits(s);
    var b := SkipFraction(a);
    SuffixTransitive(b, a, s);
    SuffixTransitive(SkipExponent(b), b, s);
    SkipExponent(b)
  }

  /** `readString`, after the opening quote: whether a closing quote was found. */
  function SkipString(s: string): (r: (bool, string))
    ensures Suffix(r.1, s)
  {
    if s == [] then (false, s)
    else if s[0] == '"' then (true, s[1..])
    else if s[0] == '\\' && |s| > 1 then
      SuffixDrop(s, 2);
      SuffixTransitive(SkipString(s[2..]).1, s[2..], s);
      SkipString(s[2..])
    else
      SuffixOfTail(SkipString(s[1..]).1, s);
      SkipString(s[1..])
  }

  /** `readCStyleComment`. */
  function SkipCStyle(s: string): (r: (bool, string))
    ensures Suffix(r.1, s)
  {
    if |s| <= 1 then
      SuffixDrop(s, |s|);
      (|s| == 1 && s[0] == '/', s[|s|..])
    else if s[0] == '*' && s[1] == '/' then
      SuffixDrop(s, 2);
      (true, s[2..])
    else
      SuffixOfTail(SkipCStyle(s[1..]).1, s);
      SkipCStyle(s[1..])
  }

  /** `readCppStyleComment`. */
  function SkipCppStyle(s: string): (rest: string)
    ensures Suffix(rest, s)
  {
    if s == [] then s
    else if s[0] == '\r' && |s| > 1 && s[1] == '\n' then
      SuffixDrop(s, 2);
      s[2..]
    else if s[0] == '\n' || s[0] == '\r' then s[1..]
    else
      SuffixOfTail(SkipCppStyle(s[1..]), s);
      SkipCppStyle(s[1..])
  }

  /** `readComment`, after the first slash. */
  function SkipComment(s: string): (r: (bool, string))
    ensures Suffix(r.1, s)
  {
    if s == [] then (false, s)
    else
      var r := if s[0] == '*' then SkipCStyle(s[1..])
               else if s[0] == '/' then (true, SkipCppStyle(s[1..]))
               else (false, s[1..]);
      SuffixOfTail(r.1, s);
      r
  }

  /** `match`: consumes the pattern if it is there. */
  function MatchWord(s: string, pattern: string): (r: (bool, string))
    ensures Suffix(r.1, s)
  {
    if |s| >= |pattern| && s[..|pattern|] == pattern then (true, s[|pattern|..]) else (false, s)
  }

  /** What follows the first character `c` of a token: its kind and the text left. */
  function Scan(c: char, s: string): (r: (Kind, string))
    ensures Suffix(r.1, s)
  {
    if c == '{' then (ObjectBegin, s)
    else if c == '}' then (ObjectEnd, s)
    else if c == '[' then (ArrayBegin, s)
    else if c == ']' then (ArrayEnd, s)
    else if c == '"' then (var (ok, t) := SkipString(s); (if ok then StringToken else ErrorToken, t))
    else if c == '/' then (var (ok, t) := SkipComment(s); (if ok then Comment else ErrorToken, t))
    else if IsDigit(c) || c == '-' then (NumberToken, SkipNumber(s))
    else if c == 't' then (var (ok, t) := MatchWord(s, "rue"); (if ok then TrueToken else ErrorToken, t))
    else if c == 'f' then (var (ok, t) := MatchWord(s, "alse"); (if ok then FalseToken else ErrorToken, t))
    else if c == 'n' then (var (ok, t) := MatchWord(s, "ull"); (if ok then NullToken else ErrorToken, t))
    else if c == ',' then (Separator, s)
    else if c == ':' then (MemberSeparator, s)
    else if c == '\0' then (EndOfStream, s)
    else (ErrorToken, s)
  }

  /** `readToken`. Every token but the end of the stream takes a character; a
      zero byte counts as the end of the stream too, and is consumed. */
  function ReadToken(s: string): (t: Token)
    ensures Suffix(t.rest, s)
    ensures t.kind != EndOfStream ==> |t.rest| < |s| && t.lexeme != []
  {
    var begin := SkipSpaces(s);
    if begin == [] then Token(EndOfStream, [], [])
    else
      var (kind, rest) := Scan(begin[0], begin[1..]);
      SuffixTransitive(rest, begin[1..], begin);
      SuffixTransitive(rest, begin, s);
      Token(kind, begin[..|begin| - |rest|], rest)
  }

  /** `skipCommentTokens`, and the loops in `readObject` and `readArray` that
      read on while the token is a comment. */
  function NextToken(s: string): (t: Token)
    ensures Suffix(t.rest, s)
    ensures t.kind != EndOfStream ==> |t.rest| < |s| && t.lexeme != []
    ensures t.kind != Comment
    decreases |s|
  {
    var t := ReadToken(s);
    if t.kind == Comment then
      SuffixTransitive(NextToken(t.rest).rest, t.rest, s);
      NextToken(t.rest)
    else t
  }

  /** `recoverFromError`: the text left after the next token of the given kind. */
  function Recover(s: string, until: Kind): (rest: string)
    ensures Suffix(rest, s)
    decreases |s|
  {
    var t := ReadToken(s);
    if t.kind == until || t.kind == EndOfStream then t.rest
    else
      SuffixTransitive(Recover(t.rest, until), t.rest, s);
      Recover(t.rest, until)
  }
}
