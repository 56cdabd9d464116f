/** `FastWriter` and `StyledWriter`: what each prints is the text of a layout. */
module JsonWriter {
  import opened JsonValue
  import opened JsonNumber
  import opened JsonText
  import opened JsonLayout

  /** Every array holds the indexes 0, 1, 2, ... without a gap. */
  ghost predicate Dense(v: Value) {
    match v
    case Arr(items) => forall k | 0 <= k < |items| :: items[k].key == Index(k) && Dense(items[k].value)
    case Obj(members) => forall k | 0 <= k < |members| :: Dense(members[k].value)
    case _ => true
  }

  /** The values the theorems about printing are stated for. */
  ghost predicate Printable(v: Value) {
    RealFree(v) && Dense(v)
  }

  lemma PartsPrintable(v: Value)
    requires Printable(v)
    ensures v.Arr? ==> forall c | c in v.items :: Printable(c.value)
    ensures v.Obj? ==> forall c | c in v.members :: Printable(c.value) && c.key.Name?
  {
  }

  // ---------------------------------------------------------------- layouts

  function FastLayout(v: Value): Layout
    decreases v
  {
    match v
    case Arr(items) => List("", FastItems(items))
    case Obj(members) => Table("", FastMembers(members))
    case _ => Atom(v)
  }

  function FastItems(cells: seq<Cell>): (items: seq<Item>)
    ensures |items| == |cells|
    decreases cells
  {
    if cells == [] then []
    else
      assert cells[0].value < cells[0];
      [Item("", FastLayout(cells[0].value), "")] + FastItems(cells[1..])
  }

  function NameOf(c: Cell): string {
    if c.key.Name? then c.key.name else ""
  }

  function FastMembers(cells: seq<Cell>): (members: seq<Member>)
    ensures |members| == |cells|
    decreases cells
  {
    if cells == [] then []
    else
      assert cells[0].value < cells[0];
      [Member("", NameOf(cells[0]), "", Item("", FastLayout(cells[0].value), ""))] + FastMembers(cells[1..])
  }

  const RIGHT_MARGIN := 74
  const INDENT_SIZE := 3

  /** A 32-bit unsigned count. */
  function Wrap32(n: nat): nat {
    n % 0x1_0000_0000
  }

  function Spaces(n: nat): (s: string)
    ensures |s| == n && AllSpace(s)
    ensures forall k | 0 <= k < n :: s[k] == ' '
  {
    seq(n, i => ' ')
  }

  function NewLine(indent: nat): string {
    "\n" + Spaces(indent)
  }

  /** A scalar or an empty container. */
  predicate Flat(v: Value) {
    match v
    case Arr(items) => items == []
    case Obj(members) => members == []
    case _ => true
  }

  /** The part of a C string in front of its first zero byte. */
  function CString(s: string): string {
    if s == [] || s[0] == '\0' then [] else [s[0]] + CString(s[1..])
  }

  function TextLength(cells: seq<Cell>): nat {
    if cells == [] then 0 else |Text(FastLayout(cells[0].value))| + TextLength(cells[1..])
  }

  predicate AllFlat(cells: seq<Cell>) {
    forall c | c in cells :: Flat(c.value)
  }

  /** `isMultineArray`: too many items, a nested item, or too long a line. */
  predicate Multiline(items: seq<Cell>) {
    || Wrap32(|items| * 3) >= RIGHT_MARGIN
    || !AllFlat(items)
    || (items != [] && Wrap32(4 + (|items| - 1) * 2 + TextLength(items)) >= RIGHT_MARGIN)
  }

  function StyledLayout(v: Value, indent: nat): Layout
    decreases v
  {
    match v
    case Arr(items) =>
      if Multiline(items)
      then List("", StyledItems(items, NewLine(indent + INDENT_SIZE), NewLine(indent), indent + INDENT_SIZE))
      else List("", StyledItems(items, " ", " ", indent))
    case Obj(members) => Table("", StyledMembers(members, indent))
    case _ => Atom(v)
  }

  /** Items with the given space before each and after the last. */
  function StyledItems(cells: seq<Cell>, before: string, end: string, indent: nat): (items: seq<Item>)
    ensures |items| == |cells|
    decreases cells
  {
    if cells == [] then []
    else
      assert cells[0].value < cells[0];
      [Item(before, StyledLayout(cells[0].value, indent), if |cells| == 1 then end else "")]
      + StyledItems(cells[1..], before, end, indent)
  }

  function StyledMembers(cells: seq<Cell>, indent: nat): (members: seq<Member>)
    ensures |members| == |cells|
    decreases cells
  {
    if cells == [] then []
    else
      assert cells[0].value < cells[0];
      [Member(NewLine(indent + INDENT_SIZE), CString(NameOf(cells[0])), " ",
              Item(" ", StyledLayout(cells[0].value, indent + INDENT_SIZE),
                   if |cells| == 1 then NewLine(indent) else ""))]
      + StyledMembers(cells[1..], indent)
  }

  lemma FlatText(v: Value, indent: nat)
    requires Flat(v)
    ensures Text(StyledLayout(v, indent)) == Text(FastLayout(v))
  {
  }

  lemma {:induction false} FastItemAt(cells: seq<Cell>, k: nat)
    requires k < |cells|
    ensures FastItems(cells)[k] == Item("", FastLayout(cells[k].value), "")
  {
    if k > 0 {
      FastItemAt(cells[1..], k - 1);
    }
  }

  lemma {:induction false} FastMemberAt(cells: seq<Cell>, k: nat)
    requires k < |cells|
    ensures FastMembers(cells)[k] == Member("", NameOf(cells[k]), "", Item("", FastLayout(cells[k].value), ""))
  {
    if k > 0 {
      FastMemberAt(cells[1..], k - 1);
    }
  }

  /** What is still to be printed of a list when `k` of its items are out. */
  function ItemsLeft(items: seq<Item>, k: nat): string
    requires k <= |items|
  {
    if k == |items| then "]" else (if k > 0 then "," else "") + ItemsText(items[k..])
  }

  lemma ItemsLeftStep(items: seq<Item>, k: nat)
    requires k < |items|
    ensures ItemsText(items[k..]) ==
      items[k].before + (Text(items[k].node) + (items[k].after + ItemsLeft(items, k + 1)))
  {
    hide Text;
    assert items[k..][1..] == items[k + 1..];
  }

  function MembersLeft(members: seq<Member>, k: nat): string
    requires k <= |members|
  {
    if k == |members| then "}" else (if k > 0 then "," else "") + MembersText(members[k..])
  }

  lemma MembersLeftStep(members: seq<Member>, k: nat)
    requires k < |members|
    ensures var m := members[k];
      MembersText(members[k..]) == m.beforeName + (Quoted(m.name) + (m.beforeColon + (":" +
        (m.value.before + (Text(m.value.node) + (m.value.after + MembersLeft(members, k + 1)))))))
  {
    hide Text, Quoted;
    assert members[k..][1..] == members[k + 1..];
  }

  lemma FastItemStep(cells: seq<Cell>, k: nat)
    requires k < |cells|
    ensures ItemsLeft(FastItems(cells), k) ==
      (if k > 0 then "," else "") + (Text(FastLayout(cells[k].value)) + ItemsLeft(FastItems(cells), k + 1))
  {
    hide Text, FastItems, ItemsText;
    ItemsLeftStep(FastItems(cells), k);
    FastItemAt(cells, k);
  }

  lemma FastMemberStep(cells: seq<Cell>, k: nat)
    requires k < |cells|
    ensures MembersLeft(FastMembers(cells), k) ==
      ((if k > 0 then "," else "") + Quoted(NameOf(cells[k]))) +
      (":" + (Text(FastLayout(cells[k].value)) + MembersLeft(FastMembers(cells), k + 1)))
  {
    hide Text, FastMembers, MembersText, Quoted, FastLayout, NameOf;
    MembersLeftStep(FastMembers(cells), k);
    FastMemberAt(cells, k);
    Concatenated(if k > 0 then "," else "", Quoted(NameOf(cells[k])),
      Text(FastLayout(cells[k].value)), MembersLeft(FastMembers(cells), k + 1));
  }

  lemma Concatenated(comma: string, name: string, text: string, rest: string)
    ensures comma + ("" + (name + ("" + (":" + ("" + (text + ("" + rest))))))) == (comma + name) + (":" + (text + rest))
  {
    assert "" + (text + ("" + rest)) == text + rest;
    assert "" + (":" + (text + rest)) == ":" + (text + rest);
  }

  lemma Append(document: string, a: string, b: string, c: string)
    ensures ((document + a) + b) + c == document + (a + (b + c))
  {
  }

  lemma TextOfList(items: seq<Item>)
    ensures Text(List("", items)) == "[" + ItemsLeft(items, 0) && ItemsLeft(items, |items|) == "]"
  {
    assert items[0..] == items;
  }

  lemma TextOfTable(members: seq<Member>)
    ensures Text(Table("", members)) == "{" + MembersLeft(members, 0) && MembersLeft(members, |members|) == "}"
  {
    assert members[0..] == members;
  }

  lemma FastLayoutOf(v: Value)
    ensures v.Arr? ==> FastLayout(v) == List("", FastItems(v.items))
    ensures v.Obj? ==> FastLayout(v) == Table("", FastMembers(v.members))
  {
  }

  // ---------------------------------------------------------------- FastWriter

  class FastWriter {
    var document: string

    constructor ()
      ensures document == ""
    {
      document := "";
    }

    /** `FastWriter::write`. */
    method Write(root: Value) returns (text: string)
      requires Printable(root)
      modifies this
      ensures text == document == Text(FastLayout(root)) + "\n"
    {
      hide *;
      document := "";
      WriteValue(root);
      assert "" + Text(FastLayout(root)) == Text(FastLayout(root));
      document := document + "\n";
      text := document;
    }

    method WriteValue(v: Value)
      requires Printable(v)
      modifies this
      ensures document == old(document) + Text(FastLayout(v))
      decreases v
    {
      hide ItemsText, MembersText;
      match v {
        case Null => document := document + "null";
        case Int(_) =>
          var text := ValueToString(v);
          document := document + text;
        case UInt(_) =>
          var text := ValueToString(v);
          document := document + text;
        case Real(_) => assert false;
        case Str(s) =>
          var text := ValueToQuotedString(s);
          document := document + text;
        case Bool(b) => document := document + (if b then "true" else "false");
        case Arr(items) => WriteItems(v);
        case Obj(members) => WriteMembers(v);
      }
    }

    method WriteItems(v: Value)
      requires v.Arr? && Printable(v)
      modifies this
      ensures document == old(document) + Text(FastLayout(v))
      decreases v, 0
    {
      hide Text, FastItems, FastLayout, Printable, ItemsLeft, Dense, RealFree;
      ghost var layout := FastItems(v.items);
      ghost var goal := document + ("[" + ItemsLeft(layout, 0));
      TextOfList(layout);
      FastLayoutOf(v);
      PartsPrintable(v);
      document := document + "[";
      for index := 0 to |v.items|
        invariant document + ItemsLeft(layout, index) == goal
      {
        FastItemStep(v.items, index);
        Append(document, if index > 0 then "," else "", Text(FastLayout(v.items[index].value)),
               ItemsLeft(layout, index + 1));
        if index > 0 {
          document := document + ",";
        }
        assert v.items[index].value < v.items[index];
        assert v.items[index] in v.items;
        WriteValue(v.items[index].value);
      }
      document := document + "]";
    }

    method WriteMembers(v: Value)
      requires v.Obj? && Printable(v)
      modifies this
      ensures document == old(document) + Text(FastLayout(v))
      decreases v, 0
    {
      hide Text, FastMembers, FastLayout, Printable, Quoted, MembersLeft, Dense, RealFree;
      ghost var layout := FastMembers(v.members);
      ghost var goal := document + ("{" + MembersLeft(layout, 0));
      TextOfTable(layout);
      FastLayoutOf(v);
      PartsPrintable(v);
      document := document + "{";
      for index := 0 to |v.members|
        invariant document + MembersLeft(layout, index) == goal
      {
        FastMemberStep(v.members, index);
        assert v.members[index] in v.members;
        ghost var before := document;
        if index > 0 {
          document := document + ",";
        }
        var name := ValueToQuotedString(v.members[index].key.name);
        document := document + name;
        assert document == before + ((if index > 0 then "," else "") + Quoted(NameOf(v.members[index])));
        Append(document, ":", Text(FastLayout(v.members[index].value)), MembersLeft(layout, index + 1));
        document := document + ":";
        assert v.members[index].value < v.members[index];
        WriteValue(v.members[index].value);
      }
      document := document + "}";
    }
  }
}
