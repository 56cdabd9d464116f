/** What the reader lets pass: the forms of numbers and comments, and what every value that is
    read has in its text. */
module JsonAccepts {
  import opened Wrappers
  import opened JsonValue
  import opened JsonNumber
  import opened JsonText
  import opened JsonGrammar
  import opened JsonLayout
  import opened JsonMembers

  // ---------------------------------------------------------------- numbers

  /** What may follow the first digits of a number: a point and digits, then a mark, perhaps a
      sign, and digits. Each part may be missing. */
  datatype Ending = Ending(point: string, decimals: string, mark: string, sign: string, digits: string)

  predicate IsEnding(e: Ending) {
    && AllDigits(e.decimals) && AllDigits(e.digits)
    && (e.point == "." || (e.point == "" && e.decimals == ""))
    && (e.mark == "e" || e.mark == "E" || (e.mark == "" && e.sign == "" && e.digits == ""))
    && (e.sign == "+" || e.sign == "-" || e.sign == "")
  }

  /** What is written after `digits` up to `rest`. */
  function Ended(e: Ending, rest: string): string {
    e.point + (e.decimals + Exponent(e, rest))
  }

  function Exponent(e: Ending, rest: string): string {
    e.mark + (e.sign + (e.digits + rest))
  }

  lemma Empty(s: string)
    ensures "" + s == s
  {
  }

  lemma SignTaken(sign: string, t: string)
    requires sign == "+" || sign == "-" || (sign == "" && (t == [] || (t[0] != '+' && t[0] != '-')))
    ensures SkipOneOf(sign + t, "+-") == t
  {
    Empty(t);
    assert sign != "" ==> (sign + t)[1..] == t;
  }

  lemma NoMark(rest: string)
    requires EndsNumber(rest)
    ensures rest == [] || (rest[0] != 'e' && rest[0] != 'E' && rest[0] != '.' && !IsDigit(rest[0]))
  {
    assert 'e' in ".eE" && 'E' in ".eE" && '.' in ".eE";
  }

  lemma ExponentTaken(e: Ending, rest: string)
    requires IsEnding(e) && EndsNumber(rest) && (rest == [] || (rest[0] != '+' && rest[0] != '-'))
    ensures SkipExponent(Exponent(e, rest)) == rest
    ensures Exponent(e, rest) == [] || (!IsDigit(Exponent(e, rest)[0]) && Exponent(e, rest)[0] != '.')
  {
    NoMark(rest);
    DigitsSkipped(e.digits, rest);
    if e.mark == "" {
      Empty(rest);
      Empty("" + rest);
    } else {
      NoSignNext(e, rest);
      hide AllDigits, EndsNumber, SkipDigits;
      MarkTaken(e, e.digits + rest);
    }
  }

  lemma NoSignNext(e: Ending, rest: string)
    requires IsEnding(e) && (rest == [] || (rest[0] != '+' && rest[0] != '-'))
    ensures var t := e.digits + rest; t == [] || (t[0] != '+' && t[0] != '-')
  {
    if e.digits == "" {
      Empty(rest);
    } else {
      assert IsDigit(e.digits[0]);
    }
  }

  /** The mark of an exponent and its sign are taken, and then digits. */
  lemma MarkTaken(e: Ending, t: string)
    requires IsEnding(e) && e.mark != "" && (t == [] || (t[0] != '+' && t[0] != '-'))
    ensures var s := e.mark + (e.sign + t);
      SkipExponent(s) == SkipDigits(t) && s != [] && !IsDigit(s[0]) && s[0] != '.'
  {
    hide AllDigits, SkipDigits;
    SignTaken(e.sign, t);
    hide SkipOneOf;
    var s := e.mark + (e.sign + t);
    assert s[0] == e.mark[0] && s[1..] == e.sign + t;
    assert 'e' in "eE" && 'E' in "eE";
  }

  lemma FractionTaken(e: Ending, tail: string)
    requires IsEnding(e) && (tail == [] || (!IsDigit(tail[0]) && tail[0] != '.'))
    ensures SkipFraction(e.point + (e.decimals + tail)) == tail
    ensures var s := e.point + (e.decimals + tail); s == [] || !IsDigit(s[0])
  {
    DigitsSkipped(e.decimals, tail);
    var s := e.point + (e.decimals + tail);
    if e.point == "" {
      Empty(tail);
      Empty("" + tail);
    } else {
      hide AllDigits, SkipDigits;
      assert s[0] == '.' && s[1..] == e.decimals + tail;
    }
  }

  /** A number is taken whole, in front of anything that cannot continue it. */
  lemma NumberTaken(digits: string, e: Ending, rest: string)
    requires AllDigits(digits) && IsEnding(e) && EndsNumber(rest) && (rest == [] || (rest[0] != '+' && rest[0] != '-'))
    ensures SkipNumber(digits + Ended(e, rest)) == rest
  {
    ExponentTaken(e, rest);
    FractionTaken(e, Exponent(e, rest));
    DigitsSkipped(digits, Ended(e, rest));
    hide IsEnding, AllDigits, IsDigit, SkipExponent, SkipFraction, SkipDigits, Exponent, EndsNumber;
  }

  lemma OneDigitMore(c: char, digits: string)
    requires IsDigit(c) && AllDigits(digits)
    ensures AllDigits([c] + digits)
  {
  }

  lemma SkipOneDigit(s: string)
    ensures SkipDigits(s) == if s != [] && IsDigit(s[0]) then SkipDigits(s[1..]) else s
  {
  }

  lemma {:induction false} DigitsTaken(s: string) returns (digits: string)
    ensures AllDigits(digits) && s == digits + SkipDigits(s)
  {
    SkipOneDigit(s);
    hide SkipDigits;
    if s != [] && IsDigit(s[0]) {
      var more := DigitsTaken(s[1..]);
      OneDigitMore(s[0], more);
      hide AllDigits, IsDigit;
      digits := [s[0]] + more;
      InFront(s, more, SkipDigits(s[1..]));
    } else {
      digits := [];
      Empty(s);
    }
  }

  lemma InFront(s: string, more: string, rest: string)
    requires s != [] && s[1..] == more + rest
    ensures s == ([s[0]] + more) + rest
  {
  }

  /** And nothing else is taken for a number. */
  lemma OnlyNumbersTaken(s: string) returns (digits: string, e: Ending)
    ensures AllDigits(digits) && IsEnding(e) && s == digits + Ended(e, SkipNumber(s))
  {
    digits := DigitsTaken(s);
    var a := SkipDigits(s);
    var point, decimals := FractionOf(a);
    var b := SkipFraction(a);
    var mark, sign, more := ExponentOf(b);
    e := Ending(point, decimals, mark, sign, more);
    assert SkipNumber(s) == SkipExponent(b);
    hide SkipDigits, SkipFraction, SkipExponent, AllDigits, SkipNumber;
  }

  lemma FractionOf(s: string) returns (point: string, decimals: string)
    ensures AllDigits(decimals) && (point == "." || (point == "" && decimals == ""))
    ensures s == point + (decimals + SkipFraction(s))
  {
    hide SkipDigits, AllDigits;
    point, decimals := "", "";
    if s != [] && s[0] == '.' {
      point := ".";
      decimals := DigitsTaken(s[1..]);
      assert SkipFraction(s) == SkipDigits(s[1..]);
      hide SkipFraction;
      assert s == "." + s[1..];
    } else {
      NoDigits();
      Empty(s);
      Empty("" + s);
    }
  }

  lemma NoDigits()
    ensures AllDigits("")
  {
  }

  lemma ExponentOf(s: string) returns (mark: string, sign: string, digits: string)
    ensures AllDigits(digits) && (mark == "e" || mark == "E" || (mark == "" && sign == "" && digits == ""))
    ensures (sign == "+" || sign == "-" || sign == "") && s == mark + (sign + (digits + SkipExponent(s)))
  {
    mark, sign, digits := "", "", "";
    if s != [] && s[0] in "eE" {
      mark := [s[0]];
      assert s == mark + s[1..];
      sign := SignOf(s[1..]);
      var t := SkipOneOf(s[1..], "+-");
      digits := DigitsTaken(t);
      assert SkipExponent(s) == SkipDigits(t);
      hide AllDigits, SkipDigits, SkipOneOf, SkipExponent;
    } else {
      Empty(s);
      Empty("" + s);
      Empty("" + ("" + s));
    }
  }

  lemma SignOf(t: string) returns (sign: string)
    ensures (sign == "+" || sign == "-" || sign == "") && t == sign + SkipOneOf(t, "+-")
  {
    if t != [] && t[0] in "+-" {
      sign := [t[0]];
      assert t == sign + t[1..];
    } else {
      sign := "";
      Empty(t);
    }
  }

  /** A number is read as an integer when it is one of 64 bits, and otherwise as a double just
      when `sscanf` takes it for one. */
  lemma NumberRead(s: string, isDouble: string -> bool, depth: nat)
    requires depth <= STACK_LIMIT && NextToken(s).kind == NumberToken
    ensures var t := NextToken(s);
      ReadValue(s, depth, isDouble) ==
        match Decoded(t.lexeme)
        case Some(n) => Read(n, t.rest)
        case None => if isDouble(t.lexeme) then Read(Real(t.lexeme), t.rest) else Failed(t.rest)
  {
    hide NextToken, Decoded;
  }

  // ---------------------------------------------------------------- comments

  /** The two characters that close a comment are not in `c`, nor does its end begin them. */
  predicate NoClosing(c: string) {
    forall k | 0 <= k < |c| :: !(c[k] == '*' && (c + "*")[k + 1] == '/')
  }

  lemma {:induction false} CStyleTaken(c: string, rest: string)
    requires NoClosing(c)
    ensures SkipCStyle(c + ("*/" + rest)) == (true, rest)
  {
    var s := c + ("*/" + rest);
    if c == [] {
      assert s == "*/" + rest && s[2..] == rest;
    } else {
      assert s[1..] == c[1..] + ("*/" + rest);
      assert s[1] == (c + "*")[1];
      assert NoClosing(c[1..]) by {
        forall k | 0 <= k < |c[1..]| ensures !(c[1..][k] == '*' && (c[1..] + "*")[k + 1] == '/') {
          assert c[1..][k] == c[k + 1] && (c[1..] + "*")[k + 1] == (c + "*")[k + 2];
        }
      }
      CStyleTaken(c[1..], rest);
    }
  }

  lemma {:induction false} CppStyleTaken(c: string, rest: string)
    requires '\n' !in c && '\r' !in c
    ensures SkipCppStyle(c + ("\n" + rest)) == rest
  {
    var s := c + ("\n" + rest);
    if c == [] {
      assert s == "\n" + rest && s[1..] == rest;
    } else {
      assert s[1..] == c[1..] + ("\n" + rest);
      assert c[0] in c;
      CppStyleTaken(c[1..], rest);
    }
  }

  /** Where a value, a name, or the token after an item is expected, a comment of either style
      makes no difference. */
  lemma CommentsSkipped(ws: string, c: string, rest: string)
    requires AllSpace(ws)
    ensures NoClosing(c) ==> NextToken(ws + ("/*" + (c + ("*/" + rest)))) == NextToken(rest)
    ensures '\n' !in c && '\r' !in c ==> NextToken(ws + ("//" + (c + ("\n" + rest)))) == NextToken(rest)
  {
    hide NoClosing, AllSpace;
    if NoClosing(c) {
      CStyleTaken(c, rest);
      CommentToken(ws, '*', c + ("*/" + rest), rest);
    }
    if '\n' !in c && '\r' !in c {
      CppStyleTaken(c, rest);
      CommentToken(ws, '/', c + ("\n" + rest), rest);
    }
  }

  lemma CommentToken(ws: string, style: char, body: string, rest: string)
    requires AllSpace(ws) && (style == '*' || style == '/')
    requires style == '*' ==> SkipCStyle(body) == (true, rest)
    requires style == '/' ==> SkipCppStyle(body) == rest
    ensures NextToken(ws + (['/', style] + body)) == NextToken(rest)
  {
    var s := [style] + body;
    assert s[1..] == body;
    assert ['/', style] + body == ['/'] + s;
    assert SkipComment(s) == (true, rest);
    hide SkipComment, SkipCStyle, SkipCppStyle, ReadToken, AllSpace;
    SlashToken(s, rest);
    SpacesBeforeToken(ws, ['/'] + s);
    var t := ReadToken(ws + (['/'] + s));
    assert t.kind == Comment && t.rest == rest;
  }

  lemma SlashToken(s: string, rest: string)
    requires SkipComment(s) == (true, rest)
    ensures var t := ReadToken(['/'] + s); t.kind == Comment && t.rest == rest
  {
    TokenAt('/', s);
    hide ReadToken, SkipComment;
  }

  // ---------------------------------------------------------------- what is accepted

  /** A value is read only from a scalar token that denotes it, or after an opening brace or
      bracket, and never beyond the depth limit. */
  lemma ValueAccepted(s: string, depth: nat, isDouble: string -> bool)
    requires ReadValue(s, depth, isDouble).Read?
    ensures var t, v := NextToken(s), ReadValue(s, depth, isDouble).value;
      && depth <= STACK_LIMIT
      && (v.Obj? <==> t.kind == ObjectBegin) && (v.Arr? <==> t.kind == ArrayBegin)
      && (v.Null? ==> t.kind == NullToken)
      && (v.Bool? ==> t.kind == if v.b then TrueToken else FalseToken)
      && (v.Str? ==> t.kind == StringToken && Unescaped(Content(t.lexeme)) == Some(v.s))
      && (v.Int? || v.UInt? ==> t.kind == NumberToken && Decoded(t.lexeme) == Some(v))
      && (v.Real? ==> t.kind == NumberToken && Decoded(t.lexeme) == None && v.lexeme == t.lexeme && isDouble(t.lexeme))
  {
    var t := NextToken(s);
    hide NextToken, Unescaped, Content, SkipSpaces;
    if t.kind == ObjectBegin {
      MembersMakeObject(t.rest, [], "", depth, isDouble);
    } else if t.kind == ArrayBegin {
      ItemsMakeArray(SkipSpaces(t.rest), [], depth, isDouble);
    } else {
      DecodedIsInteger(t.lexeme);
      hide Decoded, ReadMembers, ReadItems;
    }
  }

  lemma DecodedIsInteger(lexeme: string)
    ensures lexeme != [] && Decoded(lexeme).Some? ==> Decoded(lexeme).value.Int? || Decoded(lexeme).value.UInt?
  {
  }

  lemma {:induction false} MembersMakeObject(s: string, cells: seq<Cell>, last: string, depth: nat,
                                             isDouble: string -> bool)
    requires ReadMembers(s, cells, last, depth, isDouble).Read?
    ensures ReadMembers(s, cells, last, depth, isDouble).value.Obj?
    decreases |s|
  {
    hide NextToken, ReadToken, Unescaped, Content, ReadValue, Recover, Put, ReadMembers, EndMember;
    MemberRead(s, cells, last, depth, isDouble);
    var name := NextToken(s);
    if name.kind != ObjectEnd {
      var key, colon := Unescaped(Content(name.lexeme)).value, ReadToken(name.rest);
      var o := ReadValue(colon.rest, depth + 1, isDouble);
      MemberEnded(o.rest, Put(cells, Name(key), o.value), key, depth, isDouble);
      var comma := ReadToken(o.rest);
      var after := if comma.kind == Comment then NextToken(comma.rest) else comma;
      if after.kind != ObjectEnd {
        MembersMakeObject(after.rest, Put(cells, Name(key), o.value), key, depth, isDouble);
      }
    }
  }

  /** An item is followed by a comma and another item, or by the closing bracket. */
  lemma ItemAccepted(s: string, cells: seq<Cell>, depth: nat, isDouble: string -> bool)
    requires ReadItems(s, cells, depth, isDouble).Read?
    ensures var o := ReadValue(s, depth + 1, isDouble);
      && o.Read?
      && var (t, items) := (NextToken(o.rest), cells + [Cell(Index(|cells|), o.value)]);
        if t.kind == ArrayEnd then ReadItems(s, cells, depth, isDouble) == Read(Arr(items), t.rest)
        else t.kind == Separator && ReadItems(s, cells, depth, isDouble) == ReadItems(t.rest, items, depth, isDouble)
  {
    hide NextToken, ReadValue, Recover;
  }

  lemma {:induction false} ItemsMakeArray(s: string, cells: seq<Cell>, depth: nat, isDouble: string -> bool)
    ensures ReadItems(s, cells, depth, isDouble).Read? ==> ReadItems(s, cells, depth, isDouble).value.Arr?
    decreases |s|
  {
    hide ReadItems, ReadValue, NextToken;
    if ReadItems(s, cells, depth, isDouble).Read? {
      ItemAccepted(s, cells, depth, isDouble);
      var o := ReadValue(s, depth + 1, isDouble);
      var t := NextToken(o.rest);
      if t.kind != ArrayEnd {
        ItemsMakeArray(t.rest, cells + [Cell(Index(|cells|), o.value)], depth, isDouble);
      }
    }
  }

  // ---------------------------------------------------------------- recovery

  /** The text after `n` tokens, comments counted. */
  function AfterTokens(s: string, n: nat): string {
    if n == 0 then s else AfterTokens(ReadToken(s).rest, n - 1)
  }

  /** Recovery goes on just after the first token of the wanted kind, or after the last one. */
  lemma {:induction false} RecoversAfter(s: string, until: Kind) returns (n: nat)
    ensures Recover(s, until) == AfterTokens(s, n + 1)
    ensures ReadToken(AfterTokens(s, n)).kind in {until, EndOfStream}
    ensures forall k | 0 <= k < n :: ReadToken(AfterTokens(s, k)).kind !in {until, EndOfStream}
    decreases |s|
  {
    hide ReadToken;
    var t := ReadToken(s);
    if t.kind == until || t.kind == EndOfStream {
      n := 0;
      assert AfterTokens(s, 1) == AfterTokens(t.rest, 0);
    } else {
      var m := RecoversAfter(t.rest, until);
      n := m + 1;
      forall k | 0 <= k < n ensures ReadToken(AfterTokens(s, k)).kind !in {until, EndOfStream} {
        if k > 0 {
          assert AfterTokens(s, k) == AfterTokens(t.rest, k - 1);
        }
      }
    }
  }
}
