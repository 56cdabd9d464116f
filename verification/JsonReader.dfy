/** `Reader`: the cursor over the document, proved against the functions of
    `JsonGrammar`. Comments are skipped and not attached to values; a value is
    returned instead of being filled in through the stack of nodes, whose size
    is kept. */
module JsonReader {
  import opened JsonValue
  import opened JsonNumber
  import opened JsonText
  import opened JsonGrammar
  import opened JsonMembers

  /** How a method of the reader ends. */
  datatype Status = Success(value: Value) | Failure | Exception

  function Next(s: string): string {
    if s == [] then s else s[1..]
  }

  lemma TokenFrom(s: string)
    ensures var begin := SkipSpaces(s);
      ReadToken(s) ==
        if begin == [] then Token(EndOfStream, [], [])
        else
          var (kind, rest) := Scan(begin[0], begin[1..]);
          Token(kind, begin[..|begin| - |rest|], rest)
  {
    hide Scan, SkipSpaces;
  }

  lemma Between(s: string, i: nat, j: nat)
    requires i <= j <= |s|
    ensures s[i..j] == s[i..][..|s[i..]| - |s[j..]|]
  {
  }

  lemma StringStep(s: string)
    requires s != []
    ensures s[0] == '"' ==> SkipString(s) == (true, Next(s))
    ensures s[0] == '\\' ==> SkipString(s) == SkipString(Next(Next(s)))
    ensures s[0] != '"' && s[0] != '\\' ==> SkipString(s) == SkipString(Next(s))
  {
    if s[0] == '\\' && |s| > 1 {
      assert Next(Next(s)) == s[2..];
    }
  }

  lemma NothingToSkip()
    ensures SkipString("") == (false, "")
  {
  }

  lemma CStyleStep(s: string)
    requires |s| >= 2
    ensures SkipCStyle(s) == if s[0] == '*' && s[1] == '/' then (true, Next(Next(s))) else SkipCStyle(Next(s))
  {
    assert Next(Next(s)) == s[2..];
  }

  lemma CStyleEnd(s: string)
    requires |s| <= 1
    ensures SkipCStyle(s) == (s == ['/'], Next(s))
  {
  }

  class Reader {
    /** Whether `decodeDouble` accepts a lexeme. */
    const isDouble: string -> bool
    var document: string
    var current: nat
    var nodes: nat

    constructor (isDouble: string -> bool)
      ensures this.isDouble == isDouble && document == "" && current == 0 && nodes == 0
    {
      this.isDouble := isDouble;
      document, current, nodes := "", 0, 0;
    }

    /** The cursor lies between the begin and the end of the document. */
    ghost predicate InBounds()
      reads this
    {
      current <= |document|
    }

    /** The text still to be read. */
    ghost function Rest(): string
      requires InBounds()
      reads this
    {
      document[current..]
    }

    method GetNextChar() returns (c: char)
      requires InBounds()
      modifies this`current
      ensures InBounds() && Rest() == Next(old(Rest()))
      ensures c == if old(Rest()) == [] then '\0' else old(Rest())[0]
    {
      if current == |document| {
        return '\0';
      }
      c := document[current];
      current := current + 1;
    }

    method SkipBlanks()
      requires InBounds()
      modifies this`current
      ensures InBounds() && Rest() == SkipSpaces(old(Rest()))
    {
      while current < |document| && IsSpace(document[current])
        invariant InBounds() && SkipSpaces(Rest()) == SkipSpaces(old(Rest()))
      {
        assert Rest()[1..] == document[current + 1..];
        current := current + 1;
      }
    }

    method ReadDigits()
      requires InBounds()
      modifies this`current
      ensures InBounds() && Rest() == SkipDigits(old(Rest()))
    {
      while current < |document| && IsDigit(document[current])
        invariant InBounds() && SkipDigits(Rest()) == SkipDigits(old(Rest()))
      {
        assert Rest()[1..] == document[current + 1..];
        current := current + 1;
      }
    }

    /** Steps over the next character if it is one of `chars`. */
    method Accept(chars: string) returns (found: bool)
      requires InBounds()
      modifies this`current
      ensures InBounds() && Rest() == SkipOneOf(old(Rest()), chars)
      ensures found <==> old(Rest()) != [] && old(Rest())[0] in chars
    {
      found := current < |document| && document[current] in chars;
      if found {
        current := current + 1;
      }
    }

    /** `readNumber`: integral part, fraction, exponent. */
    method ReadNumber()
      requires InBounds()
      modifies this`current
      ensures InBounds() && Rest() == SkipNumber(old(Rest()))
    {
      hide SkipDigits, SkipFraction, SkipExponent;
      ReadDigits();
      ReadFraction();
      ReadExponent();
    }

    method ReadFraction()
      requires InBounds()
      modifies this`current
      ensures InBounds() && Rest() == SkipFraction(old(Rest()))
    {
      hide SkipDigits;
      if current < |document| && document[current] == '.' {
        ghost var tail := Rest()[1..];
        current := current + 1;
        assert Rest() == tail;
        ReadDigits();
      }
    }

    method ReadExponent()
      requires InBounds()
      modifies this`current
      ensures InBounds() && Rest() == SkipExponent(old(Rest()))
    {
      hide SkipDigits;
      var exponent := Accept("eE");
      if exponent {
        ghost var r := Rest();
        var _ := Accept("+-");
        ReadDigits();
      }
    }

    /** `readString`. */
    method ReadString() returns (ok: bool)
      requires InBounds()
      modifies this`current
      ensures InBounds() && (ok, Rest()) == SkipString(old(Rest()))
    {
      hide SkipString;
      var c := '\0';
      while current != |document|
        invariant InBounds() && c != '"' && SkipString(Rest()) == SkipString(old(Rest()))
        decreases |document| - current
      {
        StringStep(Rest());
        c := GetNextChar();
        if c == '\\' {
          var _ := GetNextChar();
        } else if c == '"' {
          break;
        }
      }
      NothingToSkip();
      ok := c == '"';
    }

    /** `readCStyleComment`. */
    method ReadCStyleComment() returns (ok: bool)
      requires InBounds()
      modifies this`current
      ensures InBounds() && (ok, Rest()) == SkipCStyle(old(Rest()))
    {
      hide SkipCStyle;
      ghost var found := false;
      while current + 1 < |document|
        invariant InBounds() && SkipCStyle(Rest()) == SkipCStyle(old(Rest()))
        decreases |document| - current
      {
        CStyleStep(Rest());
        var c := GetNextChar();
        if c == '*' && document[current] == '/' {
          found := true;
          break;
        }
      }
      if !found {
        CStyleEnd(Rest());
      }
      var c := GetNextChar();
      ok := c == '/';
    }

    /** `readCppStyleComment`. */
    method ReadCppStyleComment()
      requires InBounds()
      modifies this`current
      ensures InBounds() && Rest() == SkipCppStyle(old(Rest()))
    {
      while current != |document|
        invariant InBounds() && SkipCppStyle(Rest()) == SkipCppStyle(old(Rest()))
        decreases |document| - current
      {
        ghost var before := Rest();
        var c := GetNextChar();
        if c == '\n' {
          break;
        }
        if c == '\r' {
          if current != |document| && document[current] == '\n' {
            var _ := GetNextChar();
            assert Rest() == before[2..];
          }
          break;
        }
      }
    }

    /** `readComment`. */
    method ReadComment() returns (ok: bool)
      requires InBounds()
      modifies this`current
      ensures InBounds() && (ok, Rest()) == SkipComment(old(Rest()))
    {
      hide SkipCStyle, SkipCppStyle;
      var more := current != |document|;
      var c := GetNextChar();
      ok := false;
      if more && c == '*' {
        ok := ReadCStyleComment();
      } else if more && c == '/' {
        ReadCppStyleComment();
        ok := true;
      }
    }

    /** `match`. */
    method Match(pattern: string) returns (ok: bool)
      requires InBounds()
      modifies this`current
      ensures InBounds() && (ok, Rest()) == MatchWord(old(Rest()), pattern)
    {
      ok := |document| - current >= |pattern| && document[current..current + |pattern|] == pattern;
      assert |document| - current >= |pattern| ==> Rest()[..|pattern|] == document[current..current + |pattern|];
      if ok {
        current := current + |pattern|;
      }
    }

    /** The characters after the first one of a token. */
    method ScanToken(c: char) returns (kind: Kind)
      requires InBounds()
      modifies this`current
      ensures InBounds() && (kind, Rest()) == Scan(c, old(Rest()))
    {
      hide SkipString, SkipComment, SkipNumber, MatchWord;
      var ok := true;
      if c == '{' {
        kind := ObjectBegin;
      } else if c == '}' {
        kind := ObjectEnd;
      } else if c == '[' {
        kind := ArrayBegin;
      } else if c == ']' {
        kind := ArrayEnd;
      } else if c == '"' {
        kind := StringToken;
        ok := ReadString();
      } else if c == '/' {
        kind := Comment;
        ok := ReadComment();
      } else if IsDigit(c) || c == '-' {
        kind := NumberToken;
        ReadNumber();
      } else if c == 't' {
        kind := TrueToken;
        ok := Match("rue");
      } else if c == 'f' {
        kind := FalseToken;
        ok := Match("alse");
      } else if c == 'n' {
        kind := NullToken;
        ok := Match("ull");
      } else if c == ',' {
        kind := Separator;
      } else if c == ':' {
        kind := MemberSeparator;
      } else if c == '\0' {
        kind := EndOfStream;
      } else {
        kind := ErrorToken;
        ok := false;
      }
      if !ok {
        kind := ErrorToken;
      }
    }

    /** `readToken`; returns the token's kind and text. */
    method ReadNextToken() returns (kind: Kind, lexeme: string)
      requires InBounds()
      modifies this`current
      ensures InBounds() && Token(kind, lexeme, Rest()) == ReadToken(old(Rest()))
    {
      TokenFrom(Rest());
      hide Scan, SkipSpaces, ReadToken;
      SkipBlanks();
      ghost var begin := Rest();
      var start := current;
      var c := GetNextChar();
      if start == |document| {
        return EndOfStream, [];
      }
      kind := ScanToken(c);
      lexeme := document[start..current];
      Between(document, start, current);
    }

    /** `skipCommentTokens`. */
    method SkipCommentTokens() returns (kind: Kind, lexeme: string)
      requires InBounds()
      modifies this`current
      ensures InBounds() && Token(kind, lexeme, Rest()) == NextToken(old(Rest()))
    {
      hide ReadToken;
      kind, lexeme := ReadNextToken();
      while kind == Comment
        invariant InBounds()
        invariant if kind == Comment then NextToken(Rest()) == NextToken(old(Rest()))
                  else Token(kind, lexeme, Rest()) == NextToken(old(Rest()))
        decreases kind == Comment, |document| - current
      {
        kind, lexeme := ReadNextToken();
      }
    }

    /** `recoverFromError`. */
    method RecoverFromError(until: Kind)
      requires InBounds()
      modifies this`current
      ensures InBounds() && Rest() == Recover(old(Rest()), until)
    {
      hide ReadToken;
      var done := false;
      while !done
        invariant InBounds()
        invariant done ==> Rest() == Recover(old(Rest()), until)
        invariant !done ==> Recover(Rest(), until) == Recover(old(Rest()), until)
        decreases !done, |document| - current
      {
        var kind, lexeme := ReadNextToken();
        done := kind == until || kind == EndOfStream;
      }
    }

    /** The status and the cursor agree with an outcome of the grammar. */
    ghost predicate Agrees(status: Status, o: Outcome)
      requires InBounds()
      reads this
    {
      match o
      case Read(v, rest) => status == Success(v) && Rest() == rest
      case Failed(rest) => status == Failure && Rest() == rest
      case Thrown => status == Exception
    }

    /** `Reader::parse`: reads one value from the start of the document; what
        follows it is not looked at, except to skip one more token. */
    method Parse(text: string) returns (status: Status)
      modifies this
      ensures document == text && InBounds()
      ensures status == match JsonGrammar.Parse(text, isDouble)
                        case Read(v, _) => Success(v)
                        case Failed(_) => Failure
                        case Thrown => Exception
      ensures var o := JsonGrammar.Parse(text, isDouble); !o.Thrown? ==> Rest() == NextToken(o.rest).rest
    {
      hide ReadValue, NextToken;
      document, current, nodes := text, 0, 1;
      assert Rest() == text;
      status := ReadAnyValue();
      if status != Exception {
        var _, _ := SkipCommentTokens();
      }
    }

    /** `readValue`. */
    method ReadAnyValue() returns (status: Status)
      requires InBounds()
      modifies this`current, this`nodes
      ensures InBounds() && Agrees(status, ReadValue(old(Rest()), nodes, isDouble))
      ensures nodes == old(nodes)
      decreases |document| - current, 1
    {
      hide NextToken, ReadMembers, ReadItems, ScalarOutcome, SkipSpaces;
      if nodes > STACK_LIMIT {
        return Exception;
      }
      ghost var s := Rest();
      var kind, lexeme := SkipCommentTokens();
      ghost var t := NextToken(s);
      assert t == Token(kind, lexeme, Rest());
      if kind == ObjectBegin {
        status := ReadObject();
      } else if kind == ArrayBegin {
        status := ReadArrayOrEmpty();
      } else {
        status := ReadScalar(t, kind, lexeme);
      }
    }

    /** The start of `readArray`, which looks for the empty array. */
    method ReadArrayOrEmpty() returns (status: Status)
      requires InBounds()
      modifies this`current, this`nodes
      ensures InBounds() && nodes == old(nodes)
      ensures var r := SkipSpaces(old(Rest()));
        Agrees(status, if r != [] && r[0] == ']' then Read(Arr([]), r[1..]) else ReadItems(r, [], nodes, isDouble))
      decreases |document| - current, 3
    {
      hide ReadItems, SkipSpaces;
      SkipBlanks();
      if current != |document| && document[current] == ']' {
        current := current + 1;
        return Success(Arr([]));
      }
      status := ReadArray();
    }

    /** The cases of `readValue` without a nested value. */
    method ReadScalar(ghost t: Token, kind: Kind, lexeme: string) returns (status: Status)
      requires InBounds() && t == Token(kind, lexeme, Rest()) && (kind != EndOfStream ==> lexeme != [])
      ensures Agrees(status, ScalarOutcome(t, isDouble))
    {
      hide Decoded, Unescaped;
      match kind
      case NumberToken =>
        var decoded := DecodeNumber(lexeme);
        status := if decoded.Some? then Success(decoded.value)
                  else if isDouble(lexeme) then Success(Real(lexeme)) else Failure;
      case StringToken =>
        var decoded := DecodeString(Content(lexeme));
        status := if decoded.Some? then Success(Str(decoded.value)) else Failure;
      case TrueToken => status := Success(Bool(true));
      case FalseToken => status := Success(Bool(false));
      case NullToken => status := Success(Null);
      case _ => status := Failure;
    }

    /** `readObject`. */
    method ReadObject() returns (status: Status)
      requires InBounds()
      modifies this`current, this`nodes
      ensures InBounds() && Agrees(status, ReadMembers(old(Rest()), [], "", nodes, isDouble))
      ensures status.Success? ==>
        status.value.Obj? && HoldsJust(status.value.members, MembersListed(old(Rest()), nodes, isDouble))
      ensures nodes == old(nodes)
      decreases |document| - current, 0
    {
      hide ReadMembers, HoldsJust, MembersListed;
      ObjectHolds(Rest(), nodes, isDouble);
      var cells: seq<Cell> := [];
      var last := "";
      ghost var o := ReadMembers(Rest(), [], "", nodes, isDouble);
      while true
        invariant InBounds() && nodes == old(nodes) && current >= old(current)
        invariant ReadMembers(Rest(), cells, last, nodes, isDouble) == o
        decreases |document| - current
      {
        var more;
        status, more, cells, last := ReadMemberTurn(cells, last, o);
        if !more {
          return;
        }
      }
    }

    /** `readArray`, past the test for an empty array. */
    method ReadArray() returns (status: Status)
      requires InBounds()
      modifies this`current, this`nodes
      ensures InBounds() && Agrees(status, ReadItems(old(Rest()), [], nodes, isDouble))
      ensures nodes == old(nodes)
      decreases |document| - current, 2
    {
      hide ReadItems;
      var cells: seq<Cell> := [];
      ghost var o := ReadItems(Rest(), [], nodes, isDouble);
      while true
        invariant InBounds() && nodes == old(nodes) && current >= old(current)
        invariant ReadItems(Rest(), cells, nodes, isDouble) == o
        decreases |document| - current
      {
        var more;
        status, more, cells := ReadItem(cells, o);
        if !more {
          return;
        }
      }
    }

    /** One turn of the item loop: whether to go on, and with what. */
    method ReadItem(cells: seq<Cell>, ghost o: Outcome) returns (status: Status, more: bool, cells': seq<Cell>)
      requires InBounds() && o == ReadItems(Rest(), cells, nodes, isDouble)
      modifies this`current, this`nodes
      ensures InBounds() && nodes == old(nodes)
      ensures !more ==> Agrees(status, o)
      ensures more ==> current > old(current) && o == ReadItems(Rest(), cells', nodes, isDouble)
      decreases |document| - current, 2, 0
    {
      hide ReadValue, NextToken, Recover;
      more, cells' := false, cells;
      nodes := nodes + 1;
      status := ReadAnyValue();
      nodes := nodes - 1;
      if status == Exception {
        return;
      }
      if status == Failure {
        RecoverFromError(ArrayEnd);
        return;
      }
      cells' := cells + [Cell(Index(|cells|), status.value)];
      var kind, _ := SkipCommentTokens();
      if kind == ArrayEnd {
        status := Success(Arr(cells'));
        return;
      }
      if kind != Separator {
        RecoverFromError(ArrayEnd);
        status := Failure;
        return;
      }
      more := true;
    }

    /** One turn of the member loop: whether to go on, and with what. */
    method ReadMemberTurn(cells: seq<Cell>, last: string, ghost o: Outcome)
      returns (status: Status, more: bool, cells': seq<Cell>, last': string)
      requires InBounds() && o == ReadMembers(Rest(), cells, last, nodes, isDouble)
      modifies this`current, this`nodes
      ensures InBounds() && nodes == old(nodes)
      ensures !more ==> Agrees(status, o)
      ensures more ==> current > old(current) && o == ReadMembers(Rest(), cells', last', nodes, isDouble)
      decreases |document| - current, 0, 0
    {
      hide ReadMember, NextToken, ReadToken, Recover, Unescaped, Content;
      status, more, cells', last' := Failure, false, cells, last;
      var kind, lexeme := SkipCommentTokens();
      if kind == ObjectEnd && last == "" {
        return Success(Obj(cells)), false, cells, last;
      }
      if kind != StringToken {
        RecoverFromError(ObjectEnd);
        return;
      }
      var name := DecodeString(Content(lexeme));
      if name.None? {
        RecoverFromError(ObjectEnd);
        return;
      }
      kind, lexeme := ReadNextToken();
      if kind != MemberSeparator {
        RecoverFromError(ObjectEnd);
        return;
      }
      last' := name.value;
      status, more, cells' := ReadMemberValue(cells, name.value, o);
    }

    method ReadMemberValue(cells: seq<Cell>, name: string, ghost o: Outcome)
      returns (status: Status, more: bool, cells': seq<Cell>)
      requires InBounds() && o == ReadMember(Rest(), cells, name, nodes, isDouble)
      modifies this`current, this`nodes
      ensures InBounds() && nodes == old(nodes)
      ensures !more ==> Agrees(status, o)
      ensures more ==> current > old(current) && o == ReadMembers(Rest(), cells', name, nodes, isDouble)
      decreases |document| - current, 2
    {
      hide ReadValue, EndMember, Recover, Put;
      status, more, cells' := Failure, false, cells;
      nodes := nodes + 1;
      status := ReadAnyValue();
      nodes := nodes - 1;
      if status == Exception {
        return;
      }
      if status == Failure {
        RecoverFromError(ObjectEnd);
        return;
      }
      cells' := Put(cells, Name(name), status.value);
      status, more := ReadMemberEnd(cells', name, o);
    }

    lemma EndFails(s: string, cells: seq<Cell>, name: string, depth: nat)
      requires ReadToken(s).kind !in {ObjectEnd, Separator, Comment}
      ensures EndMember(s, cells, name, depth, isDouble) == Failed(Recover(ReadToken(s).rest, ObjectEnd))
    {
      hide ReadMembers, NextToken, ReadToken, Recover;
    }

    lemma EndGoesOn(s: string, cells: seq<Cell>, name: string, depth: nat, after: Token)
      requires ReadToken(s).kind in {ObjectEnd, Separator, Comment}
      requires after == if ReadToken(s).kind == Comment then NextToken(ReadToken(s).rest) else ReadToken(s)
      ensures EndMember(s, cells, name, depth, isDouble) ==
        if after.kind == ObjectEnd then Read(Obj(cells), after.rest)
        else ReadMembers(after.rest, cells, name, depth, isDouble)
    {
      hide ReadMembers, NextToken, ReadToken, Recover;
    }

    method ReadMemberEnd(cells: seq<Cell>, name: string, ghost o: Outcome) returns (status: Status, more: bool)
      requires InBounds() && o == EndMember(Rest(), cells, name, nodes, isDouble)
      modifies this`current
      ensures InBounds()
      ensures !more ==> Agrees(status, o)
      ensures more ==> current > old(current) && o == ReadMembers(Rest(), cells, name, nodes, isDouble)
    {
      hide EndMember, ReadMembers, NextToken, ReadToken, Recover;
      status, more := Failure, false;
      ghost var s := Rest();
      var kind, failed := ReadSeparator();
      if failed {
        EndFails(s, cells, name, nodes);
        return;
      }
      ghost var comma := ReadToken(s);
      EndGoesOn(s, cells, name, nodes, if comma.kind == Comment then NextToken(comma.rest) else comma);
      if kind == ObjectEnd {
        status := Success(Obj(cells));
        return;
      }
      more := true;
    }

    /** The token that ends a turn, comments skipped. */
    method ReadSeparator() returns (kind: Kind, failed: bool)
      requires InBounds()
      modifies this`current
      ensures InBounds() && (!failed ==> current > old(current))
      ensures failed == (ReadToken(old(Rest())).kind !in {ObjectEnd, Separator, Comment})
      ensures failed ==> Rest() == Recover(ReadToken(old(Rest())).rest, ObjectEnd)
      ensures !failed ==>
        var comma := ReadToken(old(Rest()));
        var after := if comma.kind == Comment then NextToken(comma.rest) else comma;
        kind == after.kind && Rest() == after.rest
    {
      hide NextToken, ReadToken, Recover;
      var lexeme;
      kind, lexeme := ReadNextToken();
      failed := kind != ObjectEnd && kind != Separator && kind != Comment;
      if failed {
        RecoverFromError(ObjectEnd);
      } else if kind == Comment {
        kind, lexeme := SkipCommentTokens();
      }
    }
  }
}
