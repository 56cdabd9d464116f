/** What `Reader` computes, as functions of the text still to be read. */
module JsonGrammar {
  import opened JsonValue
  import opened JsonNumber
  import opened JsonText

  const STACK_LIMIT := 1000

  /** How a read ends: with a value, with a recorded error after recovery, or
      with the exception for a document nested too deeply. */
  datatype Outcome = Read(value: Value, rest: string) | Failed(rest: string) | Thrown

  /** `currentValue()[name] = v`: replaces the cell or inserts it in key order. */
  function Put(cells: seq<Cell>, key: Key, v: Value): seq<Cell> {
    if cells == [] || KeyLess(key, cells[0].key) then [Cell(key, v)] + cells
    else if cells[0].key == key then [Cell(key, v)] + cells[1..]
    else [cells[0]] + Put(cells[1..], key, v)
  }

  ghost predicate Advances(o: Outcome, s: string) {
    match o
    case Read(_, rest) => Suffix(rest, s) && |rest| < |s|
    case Failed(rest) => Suffix(rest, s)
    case Thrown => true
  }

  lemma AdvancesFrom(o: Outcome, t: string, s: string)
    requires Advances(o, t) && Suffix(t, s)
    ensures Advances(o, s)
  {
    if !o.Thrown? {
      SuffixTransitive(o.rest, t, s);
    }
  }

  /** `decodeNumber` followed by `decodeDouble`, whose verdict on a lexeme is
      given by `isDouble`. */
  function NumberOutcome(t: Token, isDouble: string -> bool): Outcome
    requires t.lexeme != []
  {
    match Decoded(t.lexeme)
    case Some(n) => Read(n, t.rest)
    case None => if isDouble(t.lexeme) then Read(Real(t.lexeme), t.rest) else Failed(t.rest)
  }

  /** The text between the quotes of a string token. */
  function Content(lexeme: string): string {
    if |lexeme| >= 2 then lexeme[1..|lexeme| - 1] else []
  }

  function StringOutcome(t: Token): Outcome {
    match Unescaped(Content(t.lexeme))
    case Some(text) => Read(Str(text), t.rest)
    case None => Failed(t.rest)
  }

  /** The cases of `readValue` without a nested value; any other token is an error. */
  function ScalarOutcome(t: Token, isDouble: string -> bool): (o: Outcome)
    requires t.kind != EndOfStream ==> t.lexeme != []
    ensures !o.Thrown? && o.rest == t.rest
    ensures o.Read? ==> t.kind != EndOfStream
  {
    match t.kind
    case NumberToken => NumberOutcome(t, isDouble)
    case StringToken => StringOutcome(t)
    case TrueToken => Read(Bool(true), t.rest)
    case FalseToken => Read(Bool(false), t.rest)
    case NullToken => Read(Null, t.rest)
    case _ => Failed(t.rest)
  }

  /** `readValue`; `depth` is the number of values being read, this one included. */
  function ReadValue(s: string, depth: nat, isDouble: string -> bool): (o: Outcome)
    ensures Advances(o, s)
    decreases |s|, 1
  {
    if depth > STACK_LIMIT then Thrown
    else
      var t := NextToken(s);
      if t.kind == ObjectBegin then
        AdvancesFrom(ReadMembers(t.rest, [], "", depth, isDouble), t.rest, s);
        ReadMembers(t.rest, [], "", depth, isDouble)
      else if t.kind == ArrayBegin then
        var r := SkipSpaces(t.rest);
        SuffixTransitive(r, t.rest, s);
        if r != [] && r[0] == ']' then
          SuffixOfTail(r[1..], r);
          SuffixTransitive(r[1..], r, s);
          Read(Arr([]), r[1..])
        else
          AdvancesFrom(ReadItems(r, [], depth, isDouble), r, s);
          ReadItems(r, [], depth, isDouble)
      else ScalarOutcome(t, isDouble)
  }

  function Recovered(s: string, until: Kind): Outcome {
    Failed(Recover(s, until))
  }

  /** The loop of `readObject`: members read so far, and the last member name. */
  function ReadMembers(s: string, cells: seq<Cell>, last: string, depth: nat, isDouble: string -> bool): (o: Outcome)
    ensures Advances(o, s)
    decreases |s|, 0
  {
    var name := NextToken(s);
    if name.kind == ObjectEnd && last == "" then Read(Obj(cells), name.rest)
    else if name.kind != StringToken || Unescaped(Content(name.lexeme)).None? then
      SuffixTransitive(Recover(name.rest, ObjectEnd), name.rest, s);
      Recovered(name.rest, ObjectEnd)
    else
      var key := Unescaped(Content(name.lexeme)).value;
      var colon := ReadToken(name.rest);
      SuffixTransitive(colon.rest, name.rest, s);
      if colon.kind != MemberSeparator then
        SuffixTransitive(Recover(colon.rest, ObjectEnd), colon.rest, s);
        Recovered(colon.rest, ObjectEnd)
      else
        AdvancesFrom(ReadMember(colon.rest, cells, key, depth, isDouble), colon.rest, s);
        ReadMember(colon.rest, cells, key, depth, isDouble)
  }

  /** The rest of a turn of that loop, after the colon: value and separator. */
  function ReadMember(s: string, cells: seq<Cell>, key: string, depth: nat, isDouble: string -> bool): (o: Outcome)
    ensures Advances(o, s)
    decreases |s|, 2
  {
    var v := ReadValue(s, depth + 1, isDouble);
    match v
    case Thrown => Thrown
    case Failed(rest) =>
      SuffixTransitive(Recover(rest, ObjectEnd), rest, s);
      Recovered(rest, ObjectEnd)
    case Read(value, rest) =>
      AdvancesFrom(EndMember(rest, Put(cells, Name(key), value), key, depth, isDouble), rest, s);
      EndMember(rest, Put(cells, Name(key), value), key, depth, isDouble)
  }

  /** The end of a turn, after the value: the closing brace or a separator. After
      a comment any other token counts as a separator. */
  function EndMember(s: string, cells: seq<Cell>, key: string, depth: nat, isDouble: string -> bool): (o: Outcome)
    ensures Advances(o, s)
    decreases |s|, 0
  {
    var comma := ReadToken(s);
    if comma.kind != ObjectEnd && comma.kind != Separator && comma.kind != Comment then
      SuffixTransitive(Recover(comma.rest, ObjectEnd), comma.rest, s);
      Recovered(comma.rest, ObjectEnd)
    else
      var after := if comma.kind == Comment then NextToken(comma.rest) else comma;
      SuffixTransitive(after.rest, comma.rest, s);
      if after.kind == ObjectEnd then Read(Obj(cells), after.rest)
      else
        AdvancesFrom(ReadMembers(after.rest, cells, key, depth, isDouble), after.rest, s);
        ReadMembers(after.rest, cells, key, depth, isDouble)
  }

  /** The loop of `readArray`. */
  function ReadItems(s: string, cells: seq<Cell>, depth: nat, isDouble: string -> bool): (o: Outcome)
    ensures Advances(o, s)
    decreases |s|, 2
  {
    var v := ReadValue(s, depth + 1, isDouble);
    match v
    case Thrown => Thrown
    case Failed(rest) =>
      SuffixTransitive(Recover(rest, ArrayEnd), rest, s);
      Recovered(rest, ArrayEnd)
    case Read(value, rest) =>
      var items := cells + [Cell(Index(|cells|), value)];
      var t := NextToken(rest);
      SuffixTransitive(t.rest, rest, s);
      if t.kind == ArrayEnd then Read(Arr(items), t.rest)
      else if t.kind != Separator then
        SuffixTransitive(Recover(t.rest, ArrayEnd), t.rest, s);
        Recovered(t.rest, ArrayEnd)
      else
        AdvancesFrom(ReadItems(t.rest, items, depth, isDouble), t.rest, s);
        ReadItems(t.rest, items, depth, isDouble)
  }

  /** `Reader::parse` on a whole document: what follows the value is not looked at. */
  function Parse(document: string, isDouble: string -> bool): Outcome {
    ReadValue(document, 1, isDouble)
  }
}
