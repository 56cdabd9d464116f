/** `StyledWriter`: its re-used buffer of child texts and its state of
    indentation never leak into what it prints. */
module JsonStyledWriter {
  import opened JsonValue
  import opened JsonNumber
  import opened JsonText
  import opened JsonLayout
  import opened JsonWriter

  /** `writeIndent`: what is added in front of the next line's text. */
  function Indentation(document: string, indentString: string): string {
    if document == "" then indentString
    else if document[|document| - 1] == ' ' then ""
    else if document[|document| - 1] == '\n' then indentString
    else "\n" + indentString
  }

  /** Text whose last character is neither a space nor a line feed. */
  predicate Solid(s: string) {
    s != [] && !IsSpace(s[|s| - 1])
  }

  lemma SolidEnd(a: string, b: string)
    requires Solid(b)
    ensures Solid(a + b)
  {
  }

  lemma {:induction false} SolidText(l: Layout)
    requires Valid(l)
    ensures Solid(Text(l))
    decreases l, 1
  {
    match l
    case Atom(v) =>
      if v.Int? || v.UInt? {
        var n := if v.Int? then (if v.i < 0 then -v.i else v.i) else v.u;
        assert IsDigit(Decimal(n)[|Decimal(n)| - 1]);
      }
    case List(lead, items) =>
      if items != [] { SolidItems(items); }
    case Table(lead, members) =>
      if members != [] { SolidMembers(members); }
  }

  lemma {:induction false} SolidItems(items: seq<Item>)
    requires items != []
    ensures Solid(ItemsText(items))
    decreases items
  {
    hide Text;
    var item := items[0];
    var end := if |items| == 1 then "]" else "," + ItemsText(items[1..]);
    if |items| > 1 {
      SolidItems(items[1..]);
    }
    assert Solid(end);
    SolidEnd(item.after, end);
    SolidEnd(Text(item.node), item.after + end);
    SolidEnd(item.before, Text(item.node) + (item.after + end));
  }

  lemma {:induction false} SolidMembers(members: seq<Member>)
    requires members != []
    ensures Solid(MembersText(members))
    decreases members
  {
    hide Text, Quoted;
    var m := members[0];
    var end := if |members| == 1 then "}" else "," + MembersText(members[1..]);
    if |members| > 1 {
      SolidMembers(members[1..]);
    }
    assert Solid(end);
    var item := m.value;
    SolidEnd(item.after, end);
    SolidEnd(Text(item.node), item.after + end);
    SolidEnd(item.before, Text(item.node) + (item.after + end));
    SolidEnd(":", item.before + (Text(item.node) + (item.after + end)));
    SolidEnd(m.beforeColon, ":" + (item.before + (Text(item.node) + (item.after + end))));
    SolidEnd(Quoted(m.name), m.beforeColon + (":" + (item.before + (Text(item.node) + (item.after + end)))));
    SolidEnd(m.beforeName,
             Quoted(m.name) + (m.beforeColon + (":" + (item.before + (Text(item.node) + (item.after + end))))));
  }

  lemma {:induction false} StyledItemAt(cells: seq<Cell>, before: string, end: string, indent: nat, k: nat)
    requires k < |cells|
    ensures StyledItems(cells, before, end, indent)[k] ==
      Item(before, StyledLayout(cells[k].value, indent), if k == |cells| - 1 then end else "")
  {
    hide StyledLayout;
    if k > 0 {
      StyledItemAt(cells[1..], before, end, indent, k - 1);
    }
  }

  lemma {:induction false} StyledMemberAt(cells: seq<Cell>, indent: nat, k: nat)
    requires k < |cells|
    ensures StyledMembers(cells, indent)[k] ==
      Member(NewLine(indent + INDENT_SIZE), CString(NameOf(cells[k])), " ",
             Item(" ", StyledLayout(cells[k].value, indent + INDENT_SIZE),
                  if k == |cells| - 1 then NewLine(indent) else ""))
  {
    hide StyledLayout;
    if k > 0 {
      StyledMemberAt(cells[1..], indent, k - 1);
    }
  }

  /** The layouts of printable values are valid, whatever the indentation. */
  lemma {:induction false} StyledValid(v: Value, indent: nat)
    requires Printable(v)
    ensures Valid(StyledLayout(v, indent))
    decreases v, 1
  {
    PartsPrintable(v);
    if v.Arr? {
      if Multiline(v.items) {
        StyledItemsValid(v.items, NewLine(indent + INDENT_SIZE), NewLine(indent), indent + INDENT_SIZE);
      } else {
        StyledItemsValid(v.items, " ", " ", indent);
      }
    } else if v.Obj? {
      StyledMembersValid(v.members, indent);
    }
  }

  lemma {:induction false} StyledItemsValid(cells: seq<Cell>, before: string, end: string, indent: nat)
    requires forall c | c in cells :: Printable(c.value)
    requires AllSpace(before) && AllSpace(end)
    ensures forall i | i in StyledItems(cells, before, end, indent) :: ValidItem(i)
    decreases cells, 0
  {
    hide StyledLayout, Valid, Printable, AllSpace;
    if cells != [] {
      assert cells[0].value < cells[0];
      assert cells[0] in cells;
      StyledValid(cells[0].value, indent);
      forall c | c in cells[1..] ensures Printable(c.value) {
        assert c in cells;
      }
      StyledItemsValid(cells[1..], before, end, indent);
      assert AllSpace("") by { EmptyIsSpace(); }
    }
  }

  lemma EmptyIsSpace()
    ensures AllSpace("") && AllSpace(" ")
  {
  }

  lemma NewLineIsSpace(indent: nat)
    ensures AllSpace(NewLine(indent))
  {
  }

  lemma {:induction false} StyledMembersValid(cells: seq<Cell>, indent: nat)
    requires forall c | c in cells :: Printable(c.value)
    ensures forall m | m in StyledMembers(cells, indent) :: ValidMember(m)
    decreases cells, 0
  {
    hide StyledLayout, Valid, Printable, AllSpace, NewLine;
    if cells != [] {
      assert cells[0].value < cells[0];
      assert cells[0] in cells;
      StyledValid(cells[0].value, indent + INDENT_SIZE);
      forall c | c in cells[1..] ensures Printable(c.value) {
        assert c in cells;
      }
      StyledMembersValid(cells[1..], indent);
      EmptyIsSpace();
      NewLineIsSpace(indent);
      NewLineIsSpace(indent + INDENT_SIZE);
    }
  }

  lemma SolidStyled(v: Value, indent: nat)
    requires Printable(v)
    ensures Solid(Text(StyledLayout(v, indent)))
  {
    StyledValid(v, indent);
    SolidText(StyledLayout(v, indent));
  }

  // ---------------------------------------------------------------- array lines

  function ChildTexts(cells: seq<Cell>): (texts: seq<string>)
    ensures |texts| == |cells|
    ensures forall k | 0 <= k < |cells| :: texts[k] == Text(FastLayout(cells[k].value))
  {
    seq(|cells|, k requires 0 <= k < |cells| => Text(FastLayout(cells[k].value)))
  }

  /** The part of a one-line array from its `k`th item on. */
  function SingleLeft(cells: seq<Cell>, k: nat): string
    requires k <= |cells|
    decreases |cells| - k
  {
    if k == |cells| then " ]"
    else (if k > 0 then ", " else "") + (Text(FastLayout(cells[k].value)) + SingleLeft(cells, k + 1))
  }

  lemma {:induction false} SingleLine(cells: seq<Cell>, indent: nat, k: nat)
    requires k < |cells| && AllFlat(cells)
    ensures ItemsText(StyledItems(cells, " ", " ", indent)[k..]) ==
      " " + (Text(FastLayout(cells[k].value)) + SingleLeft(cells, k + 1))
    decreases |cells| - k
  {
    hide Text, FastLayout, StyledLayout, StyledItems;
    var layout := StyledItems(cells, " ", " ", indent);
    ItemsLeftStep(layout, k);
    StyledItemAt(cells, " ", " ", indent, k);
    FlatText(cells[k].value, indent);
    if k + 1 < |cells| {
      SingleLine(cells, indent, k + 1);
      assert layout[k].after + ItemsLeft(layout, k + 1) == SingleLeft(cells, k + 1);
    } else {
      assert layout[k].after + ItemsLeft(layout, k + 1) == " ]";
    }
  }

  lemma EmptyContainers()
    ensures forall n: nat :: Text(StyledLayout(Arr([]), n)) == Text(FastLayout(Arr([]))) == "[]"
    ensures forall n: nat :: Text(StyledLayout(Obj([]), n)) == Text(FastLayout(Obj([]))) == "{}"
    ensures Text(FastLayout(Arr([]))) == "[]" && Text(FastLayout(Obj([]))) == "{}"
  {
    assert Text(List("", [])) == "[]" && Text(Table("", [])) == "{}";
    forall n: nat
      ensures Text(StyledLayout(Arr([]), n)) == Text(FastLayout(Arr([]))) == "[]"
      ensures Text(StyledLayout(Obj([]), n)) == Text(FastLayout(Obj([]))) == "{}"
    {
      FlatText(Arr([]), n);
      FlatText(Obj([]), n);
    }
  }

  lemma SingleLineText(items: seq<Cell>, indent: nat)
    requires items != [] && !Multiline(items)
    ensures Text(StyledLayout(Arr(items), indent)) == "[ " + SingleLeft(items, 0)
  {
    hide StyledItems, SingleLeft;
    var layout := StyledItems(items, " ", " ", indent);
    assert StyledLayout(Arr(items), indent) == List("", layout);
    TextOfList(layout);
    assert layout[0..] == layout;
    SingleLine(items, indent, 0);
    SingleLeftStart(items);
  }

  lemma SingleLeftStart(items: seq<Cell>)
    requires items != []
    ensures SingleLeft(items, 0) == Text(FastLayout(items[0].value)) + SingleLeft(items, 1)
  {
    assert "" + (Text(FastLayout(items[0].value)) + SingleLeft(items, 1)) ==
      Text(FastLayout(items[0].value)) + SingleLeft(items, 1);
  }

  /** The items of an array that takes several lines. */
  function Lines(items: seq<Cell>, indent: nat): (layout: seq<Item>)
    ensures |layout| == |items|
  {
    StyledItems(items, NewLine(indent + INDENT_SIZE), NewLine(indent), indent + INDENT_SIZE)
  }

  /** What is still to be printed from the `k`th line on, its comma excluded. */
  function LinesLeft(items: seq<Cell>, indent: nat, k: nat): string
    requires k <= |items|
  {
    if k == |items| then NewLine(indent) + "]" else ItemsText(Lines(items, indent)[k..])
  }

  lemma LinesText(items: seq<Cell>, indent: nat)
    requires items != [] && Multiline(items)
    ensures Text(StyledLayout(Arr(items), indent)) == "[" + LinesLeft(items, indent, 0)
  {
    hide StyledItems, NewLine;
    assert StyledLayout(Arr(items), indent) == List("", Lines(items, indent));
    TextOfList(Lines(items, indent));
    assert Lines(items, indent)[0..] == Lines(items, indent);
  }

  /** A line of an array: line break, indentation, value. */
  function Line(v: Value, indent: nat): string {
    NewLine(indent) + Text(StyledLayout(v, indent))
  }

  /** A line of an object: line break, indentation, name, value. */
  function Row(c: Cell, indent: nat): string {
    ((NewLine(indent) + Quoted(CString(NameOf(c)))) + " : ") + Text(StyledLayout(c.value, indent))
  }

  lemma LineStep(items: seq<Cell>, indent: nat, k: nat)
    requires k < |items|
    ensures LinesLeft(items, indent, k) ==
      Line(items[k].value, indent + INDENT_SIZE)
      + ((if k + 1 < |items| then "," else "") + LinesLeft(items, indent, k + 1))
  {
    hide Text, StyledLayout, StyledItems, NewLine, ItemsText;
    ItemsLeftStep(Lines(items, indent), k);
    StyledItemAt(items, NewLine(indent + INDENT_SIZE), NewLine(indent), indent + INDENT_SIZE, k);
    if k + 1 < |items| {
      assert "" + ("," + LinesLeft(items, indent, k + 1)) == "," + LinesLeft(items, indent, k + 1);
    } else {
      assert "" + LinesLeft(items, indent, k + 1) == LinesLeft(items, indent, k + 1);
    }
  }

  function RowsLeft(members: seq<Cell>, indent: nat, k: nat): string
    requires k <= |members|
  {
    if k == |members| then NewLine(indent) + "}" else MembersText(StyledMembers(members, indent)[k..])
  }

  lemma RowsText(members: seq<Cell>, indent: nat)
    requires members != []
    ensures Text(StyledLayout(Obj(members), indent)) == "{" + RowsLeft(members, indent, 0)
  {
    hide StyledMembers, NewLine;
    assert StyledLayout(Obj(members), indent) == Table("", StyledMembers(members, indent));
    TextOfTable(StyledMembers(members, indent));
    assert StyledMembers(members, indent)[0..] == StyledMembers(members, indent);
  }

  lemma RowStep(members: seq<Cell>, indent: nat, k: nat)
    requires k < |members|
    ensures RowsLeft(members, indent, k) ==
      Row(members[k], indent + INDENT_SIZE)
      + ((if k + 1 < |members| then "," else "") + RowsLeft(members, indent, k + 1))
  {
    hide Text, StyledLayout, StyledMembers, NewLine, MembersText, Quoted, CString, NameOf;
    MembersLeftStep(StyledMembers(members, indent), k);
    StyledMemberAt(members, indent, k);
    var left := (if k + 1 < |members| then "," else "") + RowsLeft(members, indent, k + 1);
    var text := Text(StyledLayout(members[k].value, indent + INDENT_SIZE));
    if k + 1 < |members| {
      assert "" + ("," + RowsLeft(members, indent, k + 1)) == left;
    } else {
      assert left == RowsLeft(members, indent, k + 1);
    }
    RowConcatenated(NewLine(indent + INDENT_SIZE), Quoted(CString(NameOf(members[k]))), text, left);
  }

  lemma RowConcatenated(line: string, name: string, text: string, rest: string)
    ensures line + (name + (" " + (":" + (" " + (text + rest))))) == (((line + name) + " : ") + text) + rest
  {
    assert " " + (":" + (" " + (text + rest))) == " : " + (text + rest);
  }

  lemma {:induction false} TextLengthAppend(cells: seq<Cell>, k: nat)
    requires k < |cells|
    ensures TextLength(cells[..k + 1]) == TextLength(cells[..k]) + |Text(FastLayout(cells[k].value))|
  {
    hide Text, FastLayout;
    if k > 0 {
      assert cells[..k + 1][1..] == cells[1..][..k] && cells[..k][1..] == cells[1..][..k - 1];
      TextLengthAppend(cells[1..], k - 1);
    }
  }

  lemma WrapAdd(a: nat, b: nat)
    ensures Wrap32(Wrap32(a) + b) == Wrap32(a + b)
  {
    var x, q := Wrap32(a) + b, a / 0x1_0000_0000;
    var p, m := x / 0x1_0000_0000, x % 0x1_0000_0000;
    assert a + b == (q + p) * 0x1_0000_0000 + m;
    WrapIs(a + b, q + p, m);
  }

  lemma WrapIs(x: nat, q: nat, m: nat)
    requires x == q * 0x1_0000_0000 + m && m < 0x1_0000_0000
    ensures Wrap32(x) == m
  {
    var p := x / 0x1_0000_0000;
    assert (p - q) * 0x1_0000_0000 == m - x % 0x1_0000_0000;
  }

  lemma ChildTextAt(items: seq<Cell>, k: nat)
    requires AllFlat(items) && k < |items|
    ensures Flat(items[k].value) && k < |ChildTexts(items)| && ChildTexts(items)[k] == Text(FastLayout(items[k].value))
  {
    assert items[k] in items;
  }

  lemma Written(before: string, row: string, separator: string, left: string)
    ensures before + (row + (separator + left)) == ((before + row) + separator) + left
  {
  }

  /** Writing a line break and the indentation makes the writer ready for a value. */
  lemma BrokenLine(document: string, indentString: string)
    requires Solid(document) && indentString != "" && indentString == Spaces(|indentString|)
    ensures Indentation(document, indentString) == NewLine(|indentString|)
    ensures var d := document + Indentation(document, indentString); d != "" && d[|d| - 1] == ' '
  {
  }

  lemma BrokenLineAt(document: string, indentString: string)
    requires Solid(document)
    ensures Indentation(document, indentString) == "\n" + indentString
  {
  }

  lemma RowsEnd(members: seq<Cell>, indent: nat)
    ensures RowsLeft(members, indent, |members|) == ("\n" + Spaces(indent)) + "}"
  {
  }

  lemma LinesEnd(items: seq<Cell>, indent: nat)
    ensures LinesLeft(items, indent, |items|) == ("\n" + Spaces(indent)) + "]"
  {
  }

  class StyledWriter {
    var childValues: seq<string>
    var document: string
    var indentString: string
    var addChildValues: bool

    constructor ()
      ensures childValues == [] && document == "" && indentString == "" && !addChildValues
    {
      childValues, document, indentString, addChildValues := [], "", "", false;
    }

    /** The indentation is made of spaces, and a value may be written here
        without a line break: at the start, or after a space. */
    ghost predicate Ready()
      reads this
    {
      && indentString == Spaces(|indentString|)
      && (if document == "" then indentString == "" else document[|document| - 1] == ' ')
    }

    /** `StyledWriter::write`. */
    method Write(root: Value) returns (text: string)
      requires Printable(root)
      modifies this
      ensures text == document == Text(StyledLayout(root, 0)) + "\n"
    {
      document := "";
      addChildValues := false;
      indentString := "";
      WriteValue(root);
      document := document + "\n";
      text := document;
    }

    method PushValue(value: string)
      modifies this`childValues, this`document
      ensures addChildValues ==> document == old(document) && childValues == old(childValues) + [value]
      ensures !addChildValues ==> document == old(document) + value && childValues == old(childValues)
    {
      if addChildValues {
        childValues := childValues + [value];
      } else {
        document := document + value;
      }
    }

    method WriteIndent()
      modifies this`document
      ensures document == old(document) + Indentation(old(document), indentString)
    {
      if document != "" {
        var last := document[|document| - 1];
        if last == ' ' {
          return;
        }
        if last != '\n' {
          document := document + "\n";
        }
      }
      document := document + indentString;
    }

    method WriteWithIndent(value: string)
      modifies this`document
      ensures document == old(document) + Indentation(old(document), indentString) + value
    {
      WriteIndent();
      document := document + value;
    }

    method Indent()
      requires indentString == Spaces(|indentString|)
      modifies this`indentString
      ensures |indentString| == |old(indentString)| + INDENT_SIZE && indentString == Spaces(|indentString|)
    {
      indentString := indentString + Spaces(INDENT_SIZE);
    }

    method Unindent()
      requires |indentString| >= INDENT_SIZE && indentString == Spaces(|indentString|)
      modifies this`indentString
      ensures indentString == Spaces(|old(indentString)| - INDENT_SIZE)
    {
      indentString := indentString[..|indentString| - INDENT_SIZE];
    }

    /** The closing bracket, on a line of its own one level further out. */
    method Close(bracket: string)
      requires |indentString| >= INDENT_SIZE && indentString == Spaces(|indentString|) && Solid(document)
      modifies this`indentString, this`document
      ensures indentString == Spaces(|old(indentString)| - INDENT_SIZE)
      ensures document == old(document) + (("\n" + indentString) + bracket)
    {
      Unindent();
      BrokenLineAt(document, indentString);
      WriteWithIndent(bracket);
    }

    /** `writeValue`: into the buffer of child texts or into the document. */
    method WriteValue(v: Value)
      requires Printable(v)
      requires if addChildValues then Flat(v) else Ready()
      modifies this
      ensures indentString == old(indentString) && addChildValues == old(addChildValues)
      ensures addChildValues ==> document == old(document) && childValues == old(childValues) + [Text(FastLayout(v))]
      ensures !addChildValues ==> document == old(document) + Text(StyledLayout(v, |indentString|))
      decreases v, 2
    {
      match v {
        case Null => PushValue("null");
        case Int(_) =>
          var text := ValueToString(v);
          PushValue(text);
        case UInt(_) =>
          var text := ValueToString(v);
          PushValue(text);
        case Real(_) => assert false;
        case Str(s) =>
          var text := ValueToQuotedString(s);
          PushValue(text);
        case Bool(b) => PushValue(if b then "true" else "false");
        case Arr(items) =>
          WriteArrayValue(v);
        case Obj(members) =>
          if members == [] {
            EmptyContainers();
            assert v == Obj([]);
            PushValue("{}");
          } else {
            WriteMembers(v);
          }
      }
    }

    /** One member of an object: its name and value on a new line. */
    method WriteRow(c: Cell)
      requires Printable(c.value) && c.key.Name? && !addChildValues && Solid(document)
      requires indentString != "" && indentString == Spaces(|indentString|)
      modifies this
      ensures indentString == old(indentString) && !addChildValues
      ensures document == old(document) + Row(c, |indentString|) && Solid(document)
      decreases c.value, 3
    {
      hide Text, StyledLayout, Printable, Quoted, CString, NewLine;
      BrokenLine(document, indentString);
      var name := ValueToQuotedString(CString(c.key.name));
      WriteWithIndent(name);
      document := document + " : ";
      WriteValue(c.value);
      SolidStyled(c.value, |indentString|);
    }

    /** One item of an array on a new line, its text taken from the buffer when
        it is there. */
    method WriteLine(v: Value, hasText: bool, text: string)
      requires Printable(v) && !addChildValues && Solid(document)
      requires hasText ==> Flat(v) && text == Text(FastLayout(v))
      requires indentString != "" && indentString == Spaces(|indentString|)
      modifies this
      ensures indentString == old(indentString) && !addChildValues
      ensures document == old(document) + Line(v, |indentString|) && Solid(document)
      ensures hasText ==> childValues == old(childValues)
      decreases v, 3
    {
      hide Text, StyledLayout, Printable, NewLine;
      BrokenLine(document, indentString);
      SolidStyled(v, |indentString|);
      if hasText {
        FlatText(v, |indentString|);
        WriteWithIndent(text);
      } else {
        WriteIndent();
        WriteValue(v);
      }
    }

    /** The members of a non-empty object, each on its own line. */
    method WriteMembers(v: Value)
      requires v.Obj? && v.members != [] && Printable(v) && !addChildValues && Ready()
      modifies this
      ensures indentString == old(indentString) && !addChildValues
      ensures document == old(document) + Text(StyledLayout(v, |indentString|))
      decreases v, 1
    {
      hide Text, StyledLayout, Printable, RealFree, Dense, RowsLeft, Row;
      ghost var n := |indentString|;
      ghost var goal := document + ("{" + RowsLeft(v.members, n, 0));
      RowsText(v.members, n);
      PartsPrintable(v);
      WriteWithIndent("{");
      Indent();
      var index := 0;
      while index < |v.members|
        invariant 0 <= index <= |v.members|
        invariant document + RowsLeft(v.members, n, index) == goal && Solid(document)
        invariant |indentString| == n + INDENT_SIZE && indentString == Spaces(|indentString|) && !addChildValues
      {
        RowStep(v.members, n, index);
        var c := v.members[index];
        assert c in v.members;
        assert c.value < c;
        Written(document, Row(c, n + INDENT_SIZE), if index + 1 < |v.members| then "," else "",
                RowsLeft(v.members, n, index + 1));
        WriteRow(c);
        index := index + 1;
        if index < |v.members| {
          document := document + ",";
        } else {
          assert document + "" == document;
        }
      }
      RowsEnd(v.members, n);
      Close("}");
    }

    /** `isMultineArray`: also fills the buffer with the texts of the items when
        they are all flat and not too many. */
    method IsMultilineArray(items: seq<Cell>) returns (multiline: bool)
      requires items != [] && !addChildValues && forall c | c in items :: Printable(c.value)
      modifies this
      ensures multiline == Multiline(items)
      ensures document == old(document) && indentString == old(indentString) && !addChildValues
      ensures childValues == [] || (AllFlat(items) && childValues == ChildTexts(items))
      ensures !multiline ==> childValues != []
      decreases items, 2
    {
      hide Text, FastLayout, StyledLayout, Printable, Wrap32;
      var size := |items|;
      multiline := Wrap32(size * 3) >= RIGHT_MARGIN;
      childValues := [];
      var index := 0;
      while index < size && !multiline
        invariant 0 <= index <= size
        invariant if multiline then Wrap32(size * 3) >= RIGHT_MARGIN || !AllFlat(items)
                  else Wrap32(size * 3) < RIGHT_MARGIN && forall k | 0 <= k < index :: Flat(items[k].value)
      {
        multiline := !Flat(items[index].value);
        assert items[index] in items;
        index := index + 1;
      }
      if !multiline {
        addChildValues := true;
        var lineLength := Wrap32(4 + (size - 1) * 2);
        for index := 0 to size
          invariant document == old(document) && indentString == old(indentString) && addChildValues
          invariant childValues == ChildTexts(items)[..index]
          invariant lineLength == Wrap32(4 + (size - 1) * 2 + TextLength(items[..index]))
        {
          assert items[index] in items;
          assert items[index].value < items[index];
          WriteValue(items[index].value);
          TextLengthAppend(items, index);
          WrapAdd(4 + (size - 1) * 2 + TextLength(items[..index]), |childValues[index]|);
          lineLength := Wrap32(lineLength + |childValues[index]|);
        }
        addChildValues := false;
        assert items[..size] == items;
        multiline := lineLength >= RIGHT_MARGIN;
      }
    }

    /** `writeArrayValue`. */
    method WriteArrayValue(v: Value)
      requires v.Arr? && Printable(v)
      requires if addChildValues then v.items == [] else Ready()
      modifies this
      ensures indentString == old(indentString) && addChildValues == old(addChildValues)
      ensures addChildValues ==> document == old(document) && childValues == old(childValues) + [Text(FastLayout(v))]
      ensures !addChildValues ==> document == old(document) + Text(StyledLayout(v, |indentString|))
      decreases v, 1
    {
      hide Text, StyledLayout, Printable, Multiline;
      if v.items == [] {
        EmptyContainers();
        assert v == Arr([]);
        PushValue("[]");
        return;
      }
      PartsPrintable(v);
      var isArrayMultiLine := IsMultilineArray(v.items);
      if isArrayMultiLine {
        WriteLines(v);
      } else {
        WriteOnOneLine(v.items);
      }
    }

    /** The items of an array that takes a single line, from the buffer. */
    method WriteOnOneLine(items: seq<Cell>)
      requires items != [] && !Multiline(items) && childValues == ChildTexts(items)
      modifies this`document
      ensures document == old(document) + Text(StyledLayout(Arr(items), |indentString|))
    {
      hide Text, StyledLayout, Multiline, FastLayout;
      SingleLineText(items, |indentString|);
      ghost var goal := document + ("[ " + SingleLeft(items, 0));
      document := document + "[ ";
      for index := 0 to |items|
        invariant document + SingleLeft(items, index) == goal
      {
        Append(document, if index > 0 then ", " else "", childValues[index], SingleLeft(items, index + 1));
        if index > 0 {
          document := document + ", ";
        }
        document := document + childValues[index];
      }
      document := document + " ]";
    }

    /** The items of an array that takes several lines. */
    method WriteLines(v: Value)
      requires v.Arr? && v.items != [] && Printable(v) && Multiline(v.items) && !addChildValues && Ready()
      requires childValues == [] || (AllFlat(v.items) && childValues == ChildTexts(v.items))
      modifies this
      ensures indentString == old(indentString) && !addChildValues
      ensures document == old(document) + Text(StyledLayout(v, |indentString|))
      decreases v, 0
    {
      hide Text, StyledLayout, Printable, RealFree, Dense, LinesLeft, Line, Multiline;
      hide FastLayout, AllFlat, Flat, ChildTexts, NewLine;
      ghost var n := |indentString|;
      ghost var goal := document + ("[" + LinesLeft(v.items, n, 0));
      LinesText(v.items, n);
      PartsPrintable(v);
      WriteWithIndent("[");
      Indent();
      var hasChildValue := childValues != [];
      var index := 0;
      while index < |v.items|
        invariant 0 <= index <= |v.items|
        invariant document + LinesLeft(v.items, n, index) == goal && Solid(document)
        invariant |indentString| == n + INDENT_SIZE && indentString == Spaces(|indentString|) && !addChildValues
        invariant hasChildValue ==> AllFlat(v.items) && childValues == ChildTexts(v.items)
      {
        LineStep(v.items, n, index);
        assert v.items[index] in v.items;
        var child := v.items[index].value;
        assert child < v.items[index];
        if hasChildValue {
          ChildTextAt(v.items, index);
        }
        Written(document, Line(child, n + INDENT_SIZE), if index + 1 < |v.items| then "," else "",
                LinesLeft(v.items, n, index + 1));
        WriteLine(child, hasChildValue, if hasChildValue then childValues[index] else "");
        index := index + 1;
        if index < |v.items| {
          document := document + ",";
        } else {
          assert document + "" == document;
        }
      }
      LinesEnd(v.items, n);
      Close("]");
    }
  }
}
