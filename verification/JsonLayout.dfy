/** Every way of spacing out a JSON text, and the theorem that `Reader::parse`
    reads each of them as the value it spells. */
module JsonLayout {
  import opened JsonValue
  import opened JsonNumber
  import opened Wrappers
  import opened JsonText
  import opened JsonGrammar

  /** A value with the white space around each of its parts. A table lists its
      members as written, in any order and with repeated names allowed. */
  datatype Layout =
    | Atom(v: Value)
    | List(lead: string, items: seq<Item>)
    | Table(lead: string, members: seq<Member>)

  datatype Item = Item(before: string, node: Layout, after: string)

  datatype Member = Member(beforeName: string, name: string, beforeColon: string, value: Item)

  predicate AllSpace(s: string) {
    forall k | 0 <= k < |s| :: IsSpace(s[k])
  }

  predicate Valid(l: Layout) {
    match l
    case Atom(v) =>
      (match v
       case Null => true
       case Bool(_) => true
       case Str(_) => true
       case Int(i) => MIN_INT64 <= i <= MAX_INT64
       case UInt(u) => u <= MAX_UINT64
       case _ => false)
    case List(lead, items) => AllSpace(lead) && forall i | i in items ::
      AllSpace(i.before) && Valid(i.node) && AllSpace(i.after)
    case Table(lead, members) =>
      AllSpace(lead) && forall m | m in members ::
        && AllSpace(m.beforeName) && AllSpace(m.beforeColon)
        && AllSpace(m.value.before) && Valid(m.value.node) && AllSpace(m.value.after)
  }

  ghost predicate ValidItem(i: Item) {
    AllSpace(i.before) && Valid(i.node) && AllSpace(i.after)
  }

  /** The text of a value without parts; a double is its lexeme. */
  function AtomText(v: Value): string {
    match v
    case Null => "null"
    case Bool(b) => if b then "true" else "false"
    case Str(s) => Quoted(s)
    case Real(lexeme) => lexeme
    case Arr(_) => "[]"
    case Obj(_) => "{}"
    case _ => IntText(v)
  }

  function Text(l: Layout): string
    decreases l
  {
    match l
    case Atom(v) => AtomText(v)
    case List(lead, items) => "[" + (if items == [] then lead + "]" else ItemsText(items))
    case Table(lead, members) => "{" + (if members == [] then lead + "}" else MembersText(members))
  }

  /** The items and the closing bracket. */
  function ItemsText(items: seq<Item>): string
    requires items != []
    decreases items
  {
    assert items[0].node < items[0];
    items[0].before + (Text(items[0].node) +
      (items[0].after + (if |items| == 1 then "]" else "," + ItemsText(items[1..]))))
  }

  /** The members and the closing brace. */
  function MembersText(members: seq<Member>): string
    requires members != []
    decreases members
  {
    assert members[0].value < members[0];
    assert members[0].value.node < members[0].value;
    members[0].beforeName + (Quoted(members[0].name) + (members[0].beforeColon + (":" +
      (members[0].value.before + (Text(members[0].value.node) +
        (members[0].value.after + (if |members| == 1 then "}" else "," + MembersText(members[1..]))))))))
  }

  /** The value a layout spells, integers tagged as `decodeNumber` tags them. */
  function Spelled(l: Layout): Value
    decreases l
  {
    match l
    case Atom(v) => if v.Int? then Retag(v.i) else if v.UInt? then Retag(v.u) else v
    case List(_, items) => Arr(Cells([], items))
    case Table(_, members) => Obj(Folded([], members))
  }

  function Cells(cells: seq<Cell>, items: seq<Item>): seq<Cell>
    decreases items
  {
    if items == [] then cells
    else
      assert items[0].node < items[0];
      Cells(cells + [Cell(Index(|cells|), Spelled(items[0].node))], items[1..])
  }

  function Folded(cells: seq<Cell>, members: seq<Member>): seq<Cell>
    decreases members
  {
    if members == [] then cells
    else
      assert members[0].value < members[0];
      assert members[0].value.node < members[0].value;
      Folded(Put(cells, Name(members[0].name), Spelled(members[0].value.node)), members[1..])
  }

  function Max(a: nat, b: nat): nat {
    if a < b then b else a
  }

  /** How deeply values are nested; 1 for a scalar or an empty container. */
  function Depth(l: Layout): nat
    decreases l
  {
    match l
    case Atom(_) => 1
    case List(_, items) => 1 + ItemsDepth(items)
    case Table(_, members) => 1 + MembersDepth(members)
  }

  function ItemsDepth(items: seq<Item>): nat
    decreases items
  {
    if items == [] then 0
    else
      assert items[0].node < items[0];
      Max(Depth(items[0].node), ItemsDepth(items[1..]))
  }

  function MembersDepth(members: seq<Member>): nat
    decreases members
  {
    if members == [] then 0
    else
      assert members[0].value < members[0];
      assert members[0].value.node < members[0].value;
      Max(Depth(members[0].value.node), MembersDepth(members[1..]))
  }

  /** Text that ends a number before it. */
  predicate EndsNumber(rest: string) {
    rest == [] || (!IsDigit(rest[0]) && rest[0] !in ".eE")
  }

  // ---------------------------------------------------------------- tokens

  lemma {:induction false} SpacesSkipped(ws: string, s: string)
    requires AllSpace(ws)
    ensures SkipSpaces(ws + s) == SkipSpaces(s)
  {
    if ws == [] {
      assert ws + s == s;
    } else {
      assert (ws + s)[1..] == ws[1..] + s;
      SpacesSkipped(ws[1..], s);
    }
  }

  lemma SpacesBeforeToken(ws: string, s: string)
    requires AllSpace(ws)
    ensures ReadToken(ws + s) == ReadToken(s)
  {
    SpacesSkipped(ws, s);
  }

  /** A token starting with `c`, read from just there. */
  lemma TokenAt(c: char, s: string)
    requires !IsSpace(c)
    ensures var (kind, rest) := Scan(c, s);
            ReadToken([c] + s) == Token(kind, [c] + s[..|s| - |rest|], rest)
  {
    var begin := [c] + s;
    assert begin[1..] == s && SkipSpaces(begin) == begin;
    var (kind, rest) := Scan(c, s);
    hide Scan, SkipSpaces;
    FrontOf(c, s, |s| - |rest|);
  }

  lemma FrontOf(c: char, s: string, n: nat)
    requires n <= |s|
    ensures ([c] + s)[..1 + n] == [c] + s[..n]
  {
  }

  lemma {:induction false} DigitsSkipped(digits: string, rest: string)
    requires AllDigits(digits) && (rest == [] || !IsDigit(rest[0]))
    ensures SkipDigits(digits + rest) == rest
  {
    if digits == [] {
      assert digits + rest == rest;
    } else {
      assert (digits + rest)[1..] == digits[1..] + rest;
      DigitsSkipped(digits[1..], rest);
    }
  }

  lemma NumberSkipped(digits: string, rest: string)
    requires AllDigits(digits) && EndsNumber(rest)
    ensures SkipNumber(digits + rest) == rest
  {
    DigitsSkipped(digits, rest);
  }

  lemma DigitsAreToken(c: char, digits: string, rest: string)
    requires (IsDigit(c) || c == '-') && AllDigits(digits) && EndsNumber(rest)
    ensures ReadToken(([c] + digits) + rest) == Token(NumberToken, [c] + digits, rest)
  {
    hide ReadToken, SkipNumber;
    SplitToken(c, digits, rest);
    NumberSkipped(digits, rest);
  }

  lemma NumberIsToken(v: Value, rest: string)
    requires v.Int? || v.UInt?
    requires EndsNumber(rest)
    ensures ReadToken(IntText(v) + rest) == Token(NumberToken, IntText(v), rest)
  {
    hide ReadToken;
    var text := IntText(v);
    assert AllDigits(text[1..]) && (IsDigit(text[0]) || text[0] == '-');
    assert text == [text[0]] + text[1..];
    DigitsAreToken(text[0], text[1..], rest);
  }

  /** A token of text `[c] + body` in front of `rest`, if scanning stops there. */
  lemma SplitToken(c: char, body: string, rest: string)
    requires !IsSpace(c)
    ensures Scan(c, body + rest).1 == rest ==>
      ReadToken(([c] + body) + rest) == Token(Scan(c, body + rest).0, [c] + body, rest)
  {
    TokenAt(c, body + rest);
    assert ([c] + body) + rest == [c] + (body + rest);
    assert (body + rest)[..|body|] == body;
  }

  lemma EscapeSkipped(c: char, t: string)
    ensures SkipString(Escaped(c) + t) == SkipString(t)
  {
    hide SkipString;
    if |Escaped(c)| == 1 {
      PlainSkipped(c, t);
    } else if |Escaped(c)| == 2 {
      assert Escaped(c) == ['\\', Escaped(c)[1]];
      PairSkipped(Escaped(c)[1], t);
    } else {
      HexSkipped(HexDigit(c as int / 16), HexDigit(c as int % 16), t);
    }
  }

  lemma PairSkipped(c: char, t: string)
    ensures SkipString(['\\', c] + t) == SkipString(t)
  {
    assert (['\\', c] + t)[2..] == t;
  }

  lemma HexSkipped(x: char, y: char, t: string)
    requires IsHex(x) && IsHex(y)
    ensures SkipString(("\\u00" + [x, y]) + t) == SkipString(t)
  {
    var s := ("\\u00" + [x, y]) + t;
    assert s[2..] == ['0'] + (['0'] + ([x] + ([y] + t)));
    PlainSkipped('0', ['0'] + ([x] + ([y] + t)));
    PlainSkipped('0', [x] + ([y] + t));
    PlainSkipped(x, [y] + t);
    PlainSkipped(y, t);
  }

  lemma PlainSkipped(c: char, t: string)
    requires c != '"' && c != '\\'
    ensures SkipString([c] + t) == SkipString(t)
  {
    assert ([c] + t)[1..] == t;
  }

  lemma {:induction false} QuotedSkipped(s: string, rest: string)
    ensures SkipString(EscapedAll(s) + ("\"" + rest)) == (true, rest)
  {
    if s == [] {
      assert EscapedAll(s) + ("\"" + rest) == "\"" + rest;
      assert ("\"" + rest)[1..] == rest;
    } else {
      var t := EscapedAll(s[1..]) + ("\"" + rest);
      assert EscapedAll(s) + ("\"" + rest) == Escaped(s[0]) + t;
      EscapeSkipped(s[0], t);
      QuotedSkipped(s[1..], rest);
    }
  }

  lemma StringIsToken(s: string, rest: string)
    ensures ReadToken(Quoted(s) + rest) == Token(StringToken, Quoted(s), rest)
  {
    var body := EscapedAll(s) + "\"";
    QuotedIs(s);
    QuotedSkipped(s, rest);
    hide *;
    assert body + rest == EscapedAll(s) + ("\"" + rest);
    QuoteScanned(body, rest);
  }

  lemma QuotedIs(s: string)
    ensures Quoted(s) == ['"'] + (EscapedAll(s) + "\"")
  {
    hide EscapedAll;
  }

  lemma QuoteScanned(body: string, rest: string)
    requires SkipString(body + rest) == (true, rest)
    ensures ReadToken((['"'] + body) + rest) == Token(StringToken, ['"'] + body, rest)
  {
    hide SkipString, ReadToken;
    SplitToken('"', body, rest);
  }

  lemma EscapeUndone(c: char, t: string)
    ensures Unescaped(Escaped(c) + t) == Prefixed([c], Unescaped(t))
  {
    if |Escaped(c)| == 1 {
      assert ([c] + t)[1..] == t;
    } else if |Escaped(c)| == 2 {
      assert (Escaped(c) + t)[2..] == t;
    } else {
      HexUndone(c, t);
    }
  }

  lemma HexDigitValue(d: nat)
    requires d < 16
    ensures IsHex(HexDigit(d)) && HexValue(HexDigit(d)) == d
  {
  }

  lemma HexQuadOfByte(c: char, t: string)
    requires c as int <= 0x1F
    ensures HexQuad(HexEscape(c)[2..] + t) == Some(c as int)
  {
    HexDigitValue(c as int / 16);
    HexDigitValue(c as int % 16);
  }

  lemma HexUndone(c: char, t: string)
    requires c as int <= 0x1F
    ensures Unescaped(HexEscape(c) + t) == Prefixed([c], Unescaped(t))
  {
    hide HexQuad;
    HexQuadOfByte(c, t);
    var s := HexEscape(c) + t;
    assert s[2..] == HexEscape(c)[2..] + t;
    assert s[6..] == t;
  }

  lemma {:induction false} QuotingUndone(s: string)
    ensures Unescaped(EscapedAll(s)) == Some(s)
  {
    if s != [] {
      EscapeUndone(s[0], EscapedAll(s[1..]));
      QuotingUndone(s[1..]);
      assert s == [s[0]] + s[1..];
    }
  }

  lemma ContentOfQuoted(s: string)
    ensures Unescaped(Content(Quoted(s))) == Some(s)
  {
    assert Content(Quoted(s)) == EscapedAll(s);
    QuotingUndone(s);
  }

  lemma WordMatched(word: string, rest: string)
    ensures MatchWord(word + rest, word) == (true, rest)
  {
    assert (word + rest)[..|word|] == word && (word + rest)[|word|..] == rest;
  }

  lemma WordIsToken(v: Value, rest: string)
    requires v.Null? || v.Bool?
    ensures ReadToken(AtomText(v) + rest) ==
      Token(if v.Null? then NullToken else if v.b then TrueToken else FalseToken, AtomText(v), rest)
  {
    hide ReadToken, MatchWord, SkipString, SkipComment, SkipNumber, Quoted, IntText;
    var body := if v.Null? then "ull" else if v.b then "rue" else "alse";
    var c := if v.Null? then 'n' else if v.b then 't' else 'f';
    assert AtomText(v) == [c] + body;
    WordMatched(body, rest);
    SplitToken(c, body, rest);
  }

  // ---------------------------------------------------------------- parsing

  function Punctuation(c: char): Kind {
    if c == '{' then ObjectBegin
    else if c == '}' then ObjectEnd
    else if c == '[' then ArrayBegin
    else if c == ']' then ArrayEnd
    else if c == ',' then Separator
    else MemberSeparator
  }

  lemma PunctuationIsToken(ws: string, c: char, rest: string)
    requires AllSpace(ws) && c in "{}[],:"
    ensures NextToken(ws + ([c] + rest)) == ReadToken(ws + ([c] + rest)) == Token(Punctuation(c), [c], rest)
  {
    hide ReadToken;
    SpacesBeforeToken(ws, [c] + rest);
    TokenAt(c, rest);
    assert Scan(c, rest) == (Punctuation(c), rest);
    assert rest[..0] == "";
  }

  lemma AtomRead(v: Value, ws: string, rest: string, depth: nat, isDouble: string -> bool)
    requires Valid(Atom(v)) && AllSpace(ws) && EndsNumber(rest) && depth <= STACK_LIMIT
    ensures ReadValue(ws + (AtomText(v) + rest), depth, isDouble) == Read(Spelled(Atom(v)), rest)
  {
    hide ReadToken, IntText, Quoted, Content, ReadMembers, ReadItems, AtomText, Decoded;
    SpacesBeforeToken(ws, AtomText(v) + rest);
    AtomIsToken(v, rest);
  }

  lemma AtomIsToken(v: Value, rest: string)
    requires Valid(Atom(v)) && EndsNumber(rest)
    ensures var t := ReadToken(AtomText(v) + rest);
      && t == Token(t.kind, AtomText(v), rest)
      && (v.Int? || v.UInt? ==> t.kind == NumberToken && Decoded(AtomText(v)) == Some(Spelled(Atom(v))))
      && (v.Str? ==> t.kind == StringToken && Unescaped(Content(AtomText(v))) == Some(v.s))
      && (v.Null? ==> t.kind == NullToken)
      && (v.Bool? ==> t.kind == if v.b then TrueToken else FalseToken)
  {
    hide ReadToken, IntText, Quoted, Content, Decoded;
    if v.Str? {
      StringIsToken(v.s, rest);
      ContentOfQuoted(v.s);
    } else if v.Int? || v.UInt? {
      NumberIsToken(v, rest);
      DecodeInvertsPrint(v);
    } else {
      WordIsToken(v, rest);
    }
  }

  lemma SpacesBeforeValue(s: string, depth: nat, isDouble: string -> bool)
    ensures ReadValue(SkipSpaces(s), depth, isDouble) == ReadValue(s, depth, isDouble)
  {
    hide ReadMembers, ReadItems, ScalarOutcome;
    NextTokenAfterSpaces(s);
    hide SkipSpaces, NextToken;
  }

  lemma NextTokenAfterSpaces(s: string)
    ensures NextToken(SkipSpaces(s)) == NextToken(s)
  {
    hide Scan;
    SkippedOnce(s);
    assert ReadToken(SkipSpaces(s)) == ReadToken(s);
  }

  lemma SpacesBeforeItems(s: string, depth: nat, isDouble: string -> bool)
    ensures ReadItems(SkipSpaces(s), [], depth, isDouble) == ReadItems(s, [], depth, isDouble)
  {
    hide ReadMembers, ReadValue, NextToken, SkipSpaces;
    SpacesBeforeValue(s, depth + 1, isDouble);
  }

  lemma {:induction false} SkippedOnce(s: string)
    ensures SkipSpaces(SkipSpaces(s)) == SkipSpaces(s)
  {
    if s != [] && IsSpace(s[0]) {
      SkippedOnce(s[1..]);
    }
  }

  lemma ListOpened(ws: string, body: string, depth: nat, isDouble: string -> bool)
    requires AllSpace(ws) && depth <= STACK_LIMIT
    ensures var r := SkipSpaces(body);
      ReadValue(ws + ("[" + body), depth, isDouble) ==
      if r != [] && r[0] == ']' then Read(Arr([]), r[1..]) else ReadItems(body, [], depth, isDouble)
  {
    hide ReadMembers, ReadItems, SkipSpaces, ReadToken;
    PunctuationIsToken(ws, '[', body);
    SpacesBeforeItems(body, depth, isDouble);
  }

  lemma TableOpened(ws: string, body: string, depth: nat, isDouble: string -> bool)
    requires AllSpace(ws) && depth <= STACK_LIMIT
    ensures ReadValue(ws + ("{" + body), depth, isDouble) == ReadMembers(body, [], "", depth, isDouble)
  {
    hide ReadMembers, ReadItems, SkipSpaces, ReadToken;
    PunctuationIsToken(ws, '{', body);
  }

  /** No text of a value starts with a space or a closing bracket. */
  lemma FirstChar(l: Layout)
    requires Valid(l)
    ensures Text(l) != [] && !IsSpace(Text(l)[0]) && Text(l)[0] != ']'
  {
    if l.Atom? && (l.v.Int? || l.v.UInt?) {
      assert IsDigit(IntText(l.v)[0]) || IntText(l.v)[0] == '-';
    }
  }

  /** The central theorem: a spaced-out text in front of `rest` is read as the
      value it spells, leaving `rest`, unless it nests too deeply, in which case
      the exception is thrown. */
  lemma {:induction false} LayoutRead(l: Layout, ws: string, rest: string, depth: nat, isDouble: string -> bool)
    requires Valid(l) && AllSpace(ws) && EndsNumber(rest)
    ensures ReadValue(ws + (Text(l) + rest), depth, isDouble) ==
      if depth + Depth(l) - 1 > STACK_LIMIT then Thrown else Read(Spelled(l), rest)
    decreases l, 2
  {
    hide *;
    if depth > STACK_LIMIT {
      TooDeep(l, ws + (Text(l) + rest), depth, isDouble);
    } else if l.Atom? {
      AtomRead(l.v, ws, rest, depth, isDouble);
      AtomFacts(l.v);
    } else if l.List? {
      ListRead(l.lead, l.items, ws, rest, depth, isDouble);
    } else {
      TableRead(l.lead, l.members, ws, rest, depth, isDouble);
    }
  }

  lemma TooDeep(l: Layout, s: string, depth: nat, isDouble: string -> bool)
    requires depth > STACK_LIMIT
    ensures ReadValue(s, depth, isDouble) == Thrown && depth + Depth(l) - 1 > STACK_LIMIT
  {
  }

  lemma AtomFacts(v: Value)
    ensures Text(Atom(v)) == AtomText(v) && Depth(Atom(v)) == 1
  {
  }

  lemma {:induction false} ListRead(lead: string, items: seq<Item>, ws: string, rest: string, depth: nat,
                                    isDouble: string -> bool)
    requires Valid(List(lead, items)) && AllSpace(ws) && EndsNumber(rest) && depth <= STACK_LIMIT
    ensures ReadValue(ws + (Text(List(lead, items)) + rest), depth, isDouble) ==
      if depth + Depth(List(lead, items)) - 1 > STACK_LIMIT then Thrown else Read(Spelled(List(lead, items)), rest)
    decreases items, 1
  {
    hide ReadItems, ReadValue, AllSpace, EndsNumber, ItemsText;
    if items == [] {
      EmptyListRead(lead, ws, rest, depth, isDouble);
    } else {
      assert Text(List(lead, items)) + rest == "[" + (ItemsText(items) + rest);
      ListOpened(ws, ItemsText(items) + rest, depth, isDouble);
      FirstItemIsNoBracket(items, rest);
      ItemsRead(items, [], rest, depth, isDouble);
    }
  }

  lemma {:induction false} TableRead(lead: string, members: seq<Member>, ws: string, rest: string, depth: nat,
                                     isDouble: string -> bool)
    requires Valid(Table(lead, members)) && AllSpace(ws) && EndsNumber(rest) && depth <= STACK_LIMIT
    ensures ReadValue(ws + (Text(Table(lead, members)) + rest), depth, isDouble) ==
      if depth + Depth(Table(lead, members)) - 1 > STACK_LIMIT then Thrown
      else Read(Spelled(Table(lead, members)), rest)
    decreases members, 1
  {
    hide ReadMembers, ReadValue, AllSpace, EndsNumber, MembersText;
    if members == [] {
      EmptyTableRead(lead, ws, rest, depth, isDouble);
    } else {
      assert Text(Table(lead, members)) + rest == "{" + (MembersText(members) + rest);
      TableOpened(ws, MembersText(members) + rest, depth, isDouble);
      MembersRead(members, [], "", rest, depth, isDouble);
    }
  }

  lemma FirstItemIsNoBracket(items: seq<Item>, rest: string)
    requires items != [] && ValidItem(items[0])
    ensures var r := SkipSpaces(ItemsText(items) + rest); r != [] && r[0] != ']'
  {
    var node := Text(items[0].node);
    var tail := items[0].after + (if |items| == 1 then "]" else "," + ItemsText(items[1..]));
    FirstChar(items[0].node);
    assert ItemsText(items) + rest == items[0].before + ((node + tail) + rest);
    SpacesSkipped(items[0].before, (node + tail) + rest);
  }

  lemma EmptyListRead(lead: string, ws: string, rest: string, depth: nat, isDouble: string -> bool)
    requires AllSpace(lead) && AllSpace(ws) && depth <= STACK_LIMIT
    ensures ReadValue(ws + (Text(List(lead, [])) + rest), depth, isDouble) == Read(Arr([]), rest)
  {
    hide ReadValue, ReadItems;
    var body := lead + ("]" + rest);
    assert Text(List(lead, [])) + rest == "[" + body;
    ListOpened(ws, body, depth, isDouble);
    SpacesSkipped(lead, "]" + rest);
    assert ("]" + rest)[1..] == rest;
  }

  lemma EmptyTableRead(lead: string, ws: string, rest: string, depth: nat, isDouble: string -> bool)
    requires AllSpace(lead) && AllSpace(ws) && depth <= STACK_LIMIT
    ensures ReadValue(ws + (Text(Table(lead, [])) + rest), depth, isDouble) == Read(Obj([]), rest)
  {
    hide ReadValue, ReadToken, NextToken;
    var body := lead + ("}" + rest);
    assert Text(Table(lead, [])) + rest == "{" + body;
    TableOpened(ws, body, depth, isDouble);
    PunctuationIsToken(lead, '}', rest);
  }

  lemma SpacesEndNumber(ws: string, c: char, rest: string)
    requires AllSpace(ws) && c in "{}[],:"
    ensures EndsNumber(ws + ([c] + rest))
  {
    if ws != [] {
      assert IsSpace(ws[0]);
    }
  }

  lemma ItemStep(s: string, cells: seq<Cell>, v: Value, x: string, depth: nat, isDouble: string -> bool)
    requires ReadValue(s, depth + 1, isDouble) == Read(v, x)
    requires NextToken(x).kind == ArrayEnd || NextToken(x).kind == Separator
    ensures ReadItems(s, cells, depth, isDouble) ==
      var items := cells + [Cell(Index(|cells|), v)];
      if NextToken(x).kind == ArrayEnd then Read(Arr(items), NextToken(x).rest)
      else ReadItems(NextToken(x).rest, items, depth, isDouble)
  {
    hide ReadValue, NextToken;
  }

  lemma ItemThrows(s: string, cells: seq<Cell>, depth: nat, isDouble: string -> bool)
    requires ReadValue(s, depth + 1, isDouble) == Thrown
    ensures ReadItems(s, cells, depth, isDouble) == Thrown
  {
    hide ReadValue, NextToken;
  }

  lemma Regroup(a: string, b: string, c: string, d: string, rest: string)
    ensures (a + (b + (c + d))) + rest == a + (b + (c + (d + rest)))
  {
  }

  /** What follows the spaces after a part of a container: a comma, or the closing
      bracket after the last part. */
  function EndChar(parts: nat, close: char): char {
    if parts == 1 then close else ','
  }

  lemma EndIsToken(ws: string, parts: nat, close: char, tail: string)
    requires AllSpace(ws) && close in "]}"
    ensures var x := ws + ([EndChar(parts, close)] + tail);
      && EndsNumber(x)
      && NextToken(x) == ReadToken(x) == Token(Punctuation(EndChar(parts, close)), [EndChar(parts, close)], tail)
    ensures Punctuation(EndChar(parts, close)) ==
      if parts != 1 then Separator else if close == ']' then ArrayEnd else ObjectEnd
  {
    hide NextToken, ReadToken, EndsNumber;
    SpacesEndNumber(ws, EndChar(parts, close), tail);
    PunctuationIsToken(ws, EndChar(parts, close), tail);
  }

  function ItemsTail(items: seq<Item>, rest: string): string
    requires items != []
  {
    if |items| == 1 then rest else ItemsText(items[1..]) + rest
  }

  lemma ItemsTextParts(items: seq<Item>, rest: string)
    requires items != []
    ensures ItemsText(items) + rest == items[0].before + (Text(items[0].node) +
              (items[0].after + ([EndChar(|items|, ']')] + ItemsTail(items, rest))))
    ensures items[0].node < items[0]
  {
    hide Text;
    var end := if |items| == 1 then "]" else "," + ItemsText(items[1..]);
    assert end + rest == [EndChar(|items|, ']')] + ItemsTail(items, rest);
    Regroup(items[0].before, Text(items[0].node), items[0].after, end, rest);
  }

  lemma {:induction false} ItemsRead(items: seq<Item>, cells: seq<Cell>, rest: string, depth: nat,
                                     isDouble: string -> bool)
    requires items != [] && (forall i | i in items :: ValidItem(i)) && EndsNumber(rest) && depth <= STACK_LIMIT
    ensures ReadItems(ItemsText(items) + rest, cells, depth, isDouble) ==
      if depth + ItemsDepth(items) > STACK_LIMIT then Thrown else Read(Arr(Cells(cells, items)), rest)
    decreases items, 0
  {
    hide ReadValue, ReadItems, NextToken, ReadToken, ItemsText, Text, Depth, Spelled, Valid, AllSpace, EndsNumber,
         Punctuation, EndChar;
    var node := items[0].node;
    assert ValidItem(items[0]);
    var s, x := ItemsText(items) + rest, items[0].after + ([EndChar(|items|, ']')] + ItemsTail(items, rest));
    ItemsTextParts(items, rest);
    EndIsToken(items[0].after, |items|, ']', ItemsTail(items, rest));
    LayoutRead(node, items[0].before, x, depth + 1, isDouble);
    if depth + Depth(node) > STACK_LIMIT {
      ItemThrows(s, cells, depth, isDouble);
    } else {
      ItemStep(s, cells, Spelled(node), x, depth, isDouble);
      if |items| > 1 {
        ItemsRead(items[1..], cells + [Cell(Index(|cells|), Spelled(node))], rest, depth, isDouble);
      }
    }
  }

  ghost predicate ValidMember(m: Member) {
    AllSpace(m.beforeName) && AllSpace(m.beforeColon) && ValidItem(m.value)
  }

  lemma MemberStep(s: string, cells: seq<Cell>, last: string, name: Token, key: string, v: Value, x: string, depth: nat,
                   isDouble: string -> bool)
    requires NextToken(s) == name && name.kind == StringToken && Unescaped(Content(name.lexeme)) == Some(key)
    requires ReadToken(name.rest).kind == MemberSeparator
    requires ReadValue(ReadToken(name.rest).rest, depth + 1, isDouble) == Read(v, x)
    requires ReadToken(x).kind == ObjectEnd || ReadToken(x).kind == Separator
    ensures ReadMembers(s, cells, last, depth, isDouble) ==
      var members := Put(cells, Name(key), v);
      if ReadToken(x).kind == ObjectEnd then Read(Obj(members), ReadToken(x).rest)
      else ReadMembers(ReadToken(x).rest, members, key, depth, isDouble)
  {
    hide ReadValue, NextToken, ReadToken, Unescaped, Content, Put;
    var y := ReadToken(name.rest).rest;
    assert ReadMembers(s, cells, last, depth, isDouble) == ReadMember(y, cells, key, depth, isDouble);
    assert ReadMember(y, cells, key, depth, isDouble) == EndMember(x, Put(cells, Name(key), v), key, depth, isDouble);
  }

  lemma MemberThrows(s: string, cells: seq<Cell>, last: string, name: Token, depth: nat, isDouble: string -> bool)
    requires NextToken(s) == name && name.kind == StringToken && Unescaped(Content(name.lexeme)).Some?
    requires ReadToken(name.rest).kind == MemberSeparator
    requires ReadValue(ReadToken(name.rest).rest, depth + 1, isDouble) == Thrown
    ensures ReadMembers(s, cells, last, depth, isDouble) == Thrown
  {
    hide ReadValue, NextToken, ReadToken, Unescaped, Content;
  }

  /** The name and colon of the first member: the text `y` of its value comes next. */
  lemma MemberName(m: Member, y: string)
    requires ValidMember(m)
    ensures var name := NextToken(m.beforeName + (Quoted(m.name) + (m.beforeColon + (":" + y))));
      && name.kind == StringToken && Unescaped(Content(name.lexeme)) == Some(m.name)
      && ReadToken(name.rest) == Token(MemberSeparator, ":", y)
  {
    hide Quoted, ReadToken, Content, Unescaped;
    var z := m.beforeColon + (":" + y);
    SpacesBeforeToken(m.beforeName, Quoted(m.name) + z);
    StringIsToken(m.name, z);
    ContentOfQuoted(m.name);
    PunctuationIsToken(m.beforeColon, ':', y);
  }

  function MembersTail(members: seq<Member>, rest: string): string
    requires members != []
  {
    if |members| == 1 then rest else MembersText(members[1..]) + rest
  }

  /** The first member's value and what follows it. */
  function ValueText(members: seq<Member>, rest: string): string
    requires members != []
  {
    var item := members[0].value;
    item.before + (Text(item.node) + (item.after + ([EndChar(|members|, '}')] + MembersTail(members, rest))))
  }

  lemma EndOfMember(members: seq<Member>, end: string, rest: string)
    requires members != []
    requires end == if |members| == 1 then "}" else "," + MembersText(members[1..])
    ensures end + rest == [EndChar(|members|, '}')] + MembersTail(members, rest)
  {
    hide MembersText;
  }

  lemma ValueTextParts(members: seq<Member>, end: string, rest: string)
    requires members != []
    requires end == if |members| == 1 then "}" else "," + MembersText(members[1..])
    ensures var item := members[0].value;
      (":" + (item.before + (Text(item.node) + (item.after + end)))) + rest == ":" + ValueText(members, rest)
  {
    hide Text, MembersText;
    var item := members[0].value;
    EndOfMember(members, end, rest);
    hide MembersTail, EndChar;
    Regroup(item.before, Text(item.node), item.after, end, rest);
  }

  lemma MembersTextParts(members: seq<Member>, rest: string)
    requires members != []
    ensures MembersText(members) + rest ==
      members[0].beforeName + (Quoted(members[0].name) + (members[0].beforeColon + (":" + ValueText(members, rest))))
    ensures members[0].value < members[0] && members[0].value.node < members[0].value
  {
    hide Text, Quoted, ValueText;
    var item := members[0].value;
    var end := if |members| == 1 then "}" else "," + MembersText(members[1..]);
    ValueTextParts(members, end, rest);
    Regroup(members[0].beforeName, Quoted(members[0].name), members[0].beforeColon,
      ":" + (item.before + (Text(item.node) + (item.after + end))), rest);
  }

  /** Everything but the value of the first member, as the reader meets it. */
  lemma MemberTokens(members: seq<Member>, rest: string)
    requires members != [] && ValidMember(members[0])
    ensures var name := NextToken(MembersText(members) + rest);
      && name.kind == StringToken && Unescaped(Content(name.lexeme)) == Some(members[0].name)
      && ReadToken(name.rest) == Token(MemberSeparator, ":", ValueText(members, rest))
    ensures var end := EndChar(|members|, '}');
      var x := members[0].value.after + ([end] + MembersTail(members, rest));
      && EndsNumber(x) && ReadToken(x) == Token(Punctuation(end), [end], MembersTail(members, rest))
      && Punctuation(end) == if |members| != 1 then Separator else ObjectEnd
  {
    hide NextToken, ReadToken, Text, Quoted, MembersText, MembersTail, ValueText, Content, Unescaped, EndsNumber;
    MembersTextParts(members, rest);
    MemberName(members[0], ValueText(members, rest));
    EndIsToken(members[0].value.after, |members|, '}', MembersTail(members, rest));
  }

  /** One turn of the member loop, given how the member's value is read. */
  lemma MemberTurn(members: seq<Member>, cells: seq<Cell>, last: string, rest: string, v: Outcome, depth: nat,
                   isDouble: string -> bool)
    requires members != [] && ValidMember(members[0])
    requires v == ReadValue(ValueText(members, rest), depth + 1, isDouble)
    requires v == Thrown ||
      (v.Read? && v.rest == members[0].value.after + ([EndChar(|members|, '}')] + MembersTail(members, rest)))
    ensures ReadMembers(MembersText(members) + rest, cells, last, depth, isDouble) ==
      if v == Thrown then Thrown
      else
        var cells' := Put(cells, Name(members[0].name), v.value);
        if |members| == 1 then Read(Obj(cells'), rest)
        else ReadMembers(MembersText(members[1..]) + rest, cells', members[0].name, depth, isDouble)
  {
    hide ReadValue, ReadMembers, NextToken, ReadToken, MembersText, ValueText, Punctuation, EndChar, Content, Unescaped,
         Put;
    MemberTokens(members, rest);
    var s := MembersText(members) + rest;
    if v == Thrown {
      MemberThrows(s, cells, last, NextToken(s), depth, isDouble);
    } else {
      MemberStep(s, cells, last, NextToken(s), members[0].name, v.value, v.rest, depth, isDouble);
    }
  }

  lemma {:induction false} MembersRead(members: seq<Member>, cells: seq<Cell>, last: string, rest: string, depth: nat,
                                       isDouble: string -> bool)
    requires members != [] && EndsNumber(rest) && depth <= STACK_LIMIT
    requires forall m | m in members :: ValidMember(m)
    ensures ReadMembers(MembersText(members) + rest, cells, last, depth, isDouble) ==
      if depth + MembersDepth(members) > STACK_LIMIT then Thrown else Read(Obj(Folded(cells, members)), rest)
    decreases members, 0
  {
    hide ReadValue, ReadMembers, NextToken, ReadToken, MembersText, MembersTail, Text, Depth, Spelled, Valid, AllSpace,
      EndsNumber, Punctuation, EndChar, Quoted, Put;
    var m, node := members[0], members[0].value.node;
    assert ValidMember(m);
    MembersTextParts(members, rest);
    EndIsToken(m.value.after, |members|, '}', MembersTail(members, rest));
    LayoutRead(node, m.value.before,
               m.value.after + ([EndChar(|members|, '}')] + MembersTail(members, rest)), depth + 1, isDouble);
    MemberTurn(members, cells, last, rest, ReadValue(ValueText(members, rest), depth + 1, isDouble), depth, isDouble);
    if depth + Depth(node) <= STACK_LIMIT && |members| > 1 {
      MembersRead(members[1..], Put(cells, Name(m.name), Spelled(node)), m.name, rest, depth, isDouble);
    }
  }
}
