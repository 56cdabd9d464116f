/** Reading what either writer prints gives the value back. */
module JsonRoundTrip {
  import opened JsonValue
  import opened JsonOrder
  import opened JsonNumber
  import opened JsonText
  import opened JsonGrammar
  import opened JsonLayout
  import opened JsonWriter
  import opened JsonStyledWriter

  /** The same value with every integer tagged as `decodeNumber` tags it. */
  function Normal(v: Value): Value
    decreases v
  {
    match v
    case Int(i) => Retag(i)
    case UInt(u) => Retag(u)
    case Arr(items) => Arr(NormalCells(items))
    case Obj(members) => Obj(NormalCells(members))
    case _ => v
  }

  function NormalCells(cells: seq<Cell>): (r: seq<Cell>)
    ensures |r| == |cells|
    decreases cells
  {
    if cells == [] then []
    else
      assert cells[0].value < cells[0];
      [Cell(cells[0].key, Normal(cells[0].value))] + NormalCells(cells[1..])
  }

  /** How many containers are open around the deepest value, that value included. */
  function Nesting(v: Value): nat
    decreases v
  {
    match v
    case Arr(items) => 1 + CellsNesting(items)
    case Obj(members) => 1 + CellsNesting(members)
    case _ => 1
  }

  function CellsNesting(cells: seq<Cell>): nat
    decreases cells
  {
    if cells == [] then 0
    else
      assert cells[0].value < cells[0];
      Max(Nesting(cells[0].value), CellsNesting(cells[1..]))
  }

  /** No member name contains a zero byte. */
  ghost predicate NulFree(v: Value)
    decreases v
  {
    match v
    case Arr(items) => forall c | c in items :: NulFree(c.value)
    case Obj(members) => forall c | c in members :: '\0' !in NameOf(c) && NulFree(c.value)
    case _ => true
  }

  // ---------------------------------------------------------------- members in order

  lemma {:induction false} PutLast(cells: seq<Cell>, key: Key, v: Value)
    requires forall c | c in cells :: KeyLess(c.key, key)
    ensures Put(cells, key, v) == cells + [Cell(key, v)]
  {
    if cells != [] {
      assert cells[0] in cells;
      KeyTrichotomy(cells[0].key, key);
      PutLast(cells[1..], key, v);
      assert cells == [cells[0]] + cells[1..];
    }
  }

  /** The members spell the cells: same names, same values up to tags. */
  ghost predicate Spells(members: seq<Member>, cells: seq<Cell>) {
    && |members| == |cells|
    && forall k | 0 <= k < |cells| ::
         cells[k].key == Name(members[k].name) && Spelled(members[k].value.node) == Normal(cells[k].value)
  }

  lemma {:induction false} FoldSpelled(done: seq<Cell>, cells: seq<Cell>, members: seq<Member>)
    requires Spells(members, cells) && Sorted(cells, false)
    requires forall d, c | d in done && c in cells :: KeyLess(d.key, c.key)
    ensures Folded(done, members) == done + NormalCells(cells)
    decreases cells
  {
    if cells != [] {
      var v := Normal(cells[0].value);
      assert cells[0] in cells;
      PutLast(done, cells[0].key, v);
      StillBefore(done, cells, v);
      SpellsNext(members, cells);
      NormalNext(done, cells);
      hide Spelled, Normal, Put, KeyLess, Spells, Sorted, NormalCells;
      FoldSpelled(done + [Cell(cells[0].key, v)], cells[1..], members[1..]);
    } else {
      hide Spelled, Normal, Put, KeyLess, Sorted;
    }
  }

  lemma NormalNext(done: seq<Cell>, cells: seq<Cell>)
    requires cells != []
    ensures done + NormalCells(cells) == (done + [Cell(cells[0].key, Normal(cells[0].value))]) + NormalCells(cells[1..])
  {
    hide Normal;
  }

  lemma SpellsNext(members: seq<Member>, cells: seq<Cell>)
    requires Spells(members, cells) && Sorted(cells, false) && cells != []
    ensures Spells(members[1..], cells[1..]) && Sorted(cells[1..], false) && members != []
    ensures cells[0].key == Name(members[0].name) && Spelled(members[0].value.node) == Normal(cells[0].value)
  {
    hide Spelled, Normal, KeyLess;
  }

  lemma StillBefore(done: seq<Cell>, cells: seq<Cell>, v: Value)
    requires Sorted(cells, false) && cells != []
    requires forall d, c | d in done && c in cells :: KeyLess(d.key, c.key)
    ensures forall d, c | d in done + [Cell(cells[0].key, v)] && c in cells[1..] :: KeyLess(d.key, c.key)
  {
    hide KeyLess;
    forall d, c | d in done + [Cell(cells[0].key, v)] && c in cells[1..] ensures KeyLess(d.key, c.key) {
      assert c in cells;
      if d !in done {
        var k :| 1 <= k < |cells| && cells[k] == c;
      }
    }
  }

  /** The items spell the cells of an array from place `n` on. */
  ghost predicate ItemsSpell(n: nat, items: seq<Item>, cells: seq<Cell>) {
    && |items| == |cells|
    && forall k | 0 <= k < |cells| ::
         cells[k].key == Index(n + k) && Spelled(items[k].node) == Normal(cells[k].value)
  }

  lemma ItemsSpellNext(n: nat, items: seq<Item>, cells: seq<Cell>)
    requires ItemsSpell(n, items, cells) && cells != []
    ensures ItemsSpell(n + 1, items[1..], cells[1..]) && items != []
    ensures cells[0].key == Index(n) && Spelled(items[0].node) == Normal(cells[0].value)
  {
    hide Spelled, Normal;
  }

  lemma {:induction false} CellsSpelled(done: seq<Cell>, cells: seq<Cell>, items: seq<Item>)
    requires ItemsSpell(|done|, items, cells)
    ensures Cells(done, items) == done + NormalCells(cells)
    decreases cells
  {
    hide Spelled, Normal;
    if cells != [] {
      ItemsSpellNext(|done|, items, cells);
      NormalNext(done, cells);
      hide NormalCells, ItemsSpell;
      CellsSpelled(done + [Cell(cells[0].key, Normal(cells[0].value))], cells[1..], items[1..]);
    }
  }

  // ---------------------------------------------------------------- FastWriter

  lemma {:induction false} FastDenotes(v: Value)
    requires Printable(v)
    ensures Spelled(FastLayout(v)) == Normal(v)
    decreases v, 1
  {
    PartsPrintable(v);
    match v
    case Arr(items) => FastItemsDenote(items);
    case Obj(members) => FastMembersDenote(members);
    case _ =>
  }

  lemma {:induction false} FastItemsDenote(items: seq<Cell>)
    requires forall k | 0 <= k < |items| :: items[k].key == Index(k)
    requires forall c | c in items :: Printable(c.value)
    ensures Cells([], FastItems(items)) == NormalCells(items)
    decreases items, 0
  {
    hide Printable, Spelled, Normal, FastLayout;
    forall k | 0 <= k < |items|
      ensures Spelled(FastItems(items)[k].node) == Normal(items[k].value)
    {
      FastItemAt(items, k);
      assert items[k] in items;
      assert items[k].value < items[k];
      FastDenotes(items[k].value);
    }
    hide FastItems, NormalCells;
    CellsSpelled([], items, FastItems(items));
  }

  lemma {:induction false} FastMembersDenote(members: seq<Cell>)
    requires Sorted(members, false) && forall c | c in members :: Printable(c.value) && c.key.Name?
    ensures Folded([], FastMembers(members)) == NormalCells(members)
    decreases members, 0
  {
    hide Printable, Spelled, Normal, FastLayout, Sorted;
    forall k | 0 <= k < |members|
      ensures members[k].key == Name(FastMembers(members)[k].name)
      ensures Spelled(FastMembers(members)[k].value.node) == Normal(members[k].value)
    {
      FastMemberAt(members, k);
      assert members[k] in members;
      assert members[k].value < members[k];
      FastDenotes(members[k].value);
    }
    hide FastMembers, NormalCells, Folded;
    FoldSpelled([], members, FastMembers(members));
  }

  lemma {:induction false} FastDepth(v: Value)
    ensures Depth(FastLayout(v)) == Nesting(v)
    decreases v, 1
  {
    if v.Arr? {
      FastItemsDepth(v.items);
    } else if v.Obj? {
      FastMembersDepth(v.members);
    }
  }

  lemma {:induction false} FastItemsDepth(cells: seq<Cell>)
    ensures ItemsDepth(FastItems(cells)) == CellsNesting(cells)
    decreases cells
  {
    if cells != [] {
      assert cells[0].value < cells[0];
      FastDepth(cells[0].value);
      FastItemsDepth(cells[1..]);
      assert FastItems(cells)[1..] == FastItems(cells[1..]);
    }
  }

  lemma {:induction false} FastMembersDepth(cells: seq<Cell>)
    ensures MembersDepth(FastMembers(cells)) == CellsNesting(cells)
    decreases cells
  {
    if cells != [] {
      assert cells[0].value < cells[0];
      FastDepth(cells[0].value);
      FastMembersDepth(cells[1..]);
      assert FastMembers(cells)[1..] == FastMembers(cells[1..]);
    }
  }

  lemma {:induction false} FastValid(v: Value)
    requires Printable(v)
    ensures Valid(FastLayout(v))
    decreases v
  {
    PartsPrintable(v);
    if v.Arr? {
      forall k | 0 <= k < |v.items| ensures ValidItem(FastItems(v.items)[k]) {
        FastItemAt(v.items, k);
        assert v.items[k] in v.items;
        assert v.items[k].value < v.items[k];
        FastValid(v.items[k].value);
      }
    } else if v.Obj? {
      forall k | 0 <= k < |v.members| ensures ValidMember(FastMembers(v.members)[k]) {
        FastMemberAt(v.members, k);
        assert v.members[k] in v.members;
        assert v.members[k].value < v.members[k];
        FastValid(v.members[k].value);
      }
    }
  }

  /** Parsing what `FastWriter::write` prints gives the value back, integers
      retagged; a value nested more than a thousand deep throws instead. */
  lemma FastRoundTrip(v: Value, isDouble: string -> bool)
    requires Printable(v)
    ensures Parse(Text(FastLayout(v)) + "\n", isDouble) ==
      if Nesting(v) > STACK_LIMIT then Thrown else Read(Normal(v), "\n")
  {
    hide *;
    FastValid(v);
    FastDepth(v);
    FastDenotes(v);
    ParsedAlone(FastLayout(v), isDouble);
  }

  lemma ParsedAlone(l: Layout, isDouble: string -> bool)
    requires Valid(l)
    ensures Parse(Text(l) + "\n", isDouble) == if Depth(l) > STACK_LIMIT then Thrown else Read(Spelled(l), "\n")
  {
    hide Text, ReadValue, Depth, Spelled, Valid;
    LayoutRead(l, "", "\n", 1, isDouble);
    assert "" + (Text(l) + "\n") == Text(l) + "\n";
  }

  // ---------------------------------------------------------------- StyledWriter

  lemma {:induction false} WholeCString(s: string)
    ensures CString(s) == s <==> '\0' !in s
    ensures '\0' !in CString(s)
  {
    if s != [] {
      WholeCString(s[1..]);
      assert s == [s[0]] + s[1..];
    }
  }

  lemma {:induction false} StyledDenotes(v: Value, indent: nat)
    requires Printable(v) && NulFree(v)
    ensures Spelled(StyledLayout(v, indent)) == Normal(v)
    decreases v, 1
  {
    PartsPrintable(v);
    match v
    case Arr(items) =>
      if Multiline(items) {
        StyledItemsDenote(items, NewLine(indent + INDENT_SIZE), NewLine(indent), indent + INDENT_SIZE);
      } else {
        StyledItemsDenote(items, " ", " ", indent);
      }
    case Obj(members) =>
      StyledMembersDenote(members, indent);
    case _ =>
  }

  lemma {:induction false} StyledMembersDenote(members: seq<Cell>, indent: nat)
    requires Sorted(members, false)
    requires forall c | c in members :: Printable(c.value) && c.key.Name? && NulFree(c.value) && '\0' !in NameOf(c)
    ensures Folded([], StyledMembers(members, indent)) == NormalCells(members)
    decreases members, 0
  {
    hide Printable, NulFree, Spelled, Normal, StyledLayout, Sorted;
    forall k | 0 <= k < |members|
      ensures members[k].key == Name(StyledMembers(members, indent)[k].name)
      ensures Spelled(StyledMembers(members, indent)[k].value.node) == Normal(members[k].value)
    {
      StyledMemberAt(members, indent, k);
      assert members[k] in members;
      assert members[k].value < members[k];
      WholeCString(NameOf(members[k]));
      StyledDenotes(members[k].value, indent + INDENT_SIZE);
    }
    hide StyledMembers, NormalCells, Folded;
    FoldSpelled([], members, StyledMembers(members, indent));
  }

  lemma {:induction false} StyledItemsDenote(items: seq<Cell>, before: string, end: string, indent: nat)
    requires forall k | 0 <= k < |items| :: items[k].key == Index(k)
    requires forall c | c in items :: Printable(c.value) && NulFree(c.value)
    ensures Cells([], StyledItems(items, before, end, indent)) == NormalCells(items)
    decreases items, 0
  {
    hide Printable, NulFree, Spelled, Normal, StyledLayout, StyledItems;
    forall k | 0 <= k < |items|
      ensures Spelled(StyledItems(items, before, end, indent)[k].node) == Normal(items[k].value)
    {
      StyledItemAt(items, before, end, indent, k);
      assert items[k] in items;
      assert items[k].value < items[k];
      StyledDenotes(items[k].value, indent);
    }
    hide NormalCells;
    CellsSpelled([], items, StyledItems(items, before, end, indent));
  }

  lemma {:induction false} StyledDepth(v: Value, indent: nat)
    ensures Depth(StyledLayout(v, indent)) == Nesting(v)
    decreases v, 1
  {
    hide Multiline;
    if v.Arr? {
      if Multiline(v.items) {
        StyledItemsDepth(v.items, NewLine(indent + INDENT_SIZE), NewLine(indent), indent + INDENT_SIZE);
      } else {
        StyledItemsDepth(v.items, " ", " ", indent);
      }
    } else if v.Obj? {
      StyledMembersDepth(v.members, indent);
    }
  }

  lemma {:induction false} StyledItemsDepth(cells: seq<Cell>, before: string, end: string, indent: nat)
    ensures ItemsDepth(StyledItems(cells, before, end, indent)) == CellsNesting(cells)
    decreases cells
  {
    hide StyledLayout, Depth, Nesting;
    if cells != [] {
      assert cells[0].value < cells[0];
      StyledDepth(cells[0].value, indent);
      StyledItemsDepth(cells[1..], before, end, indent);
      assert StyledItems(cells, before, end, indent)[1..] == StyledItems(cells[1..], before, end, indent);
    }
  }

  lemma {:induction false} StyledMembersDepth(cells: seq<Cell>, indent: nat)
    ensures MembersDepth(StyledMembers(cells, indent)) == CellsNesting(cells)
    decreases cells
  {
    hide StyledLayout, Depth, Nesting;
    if cells != [] {
      assert cells[0].value < cells[0];
      StyledDepth(cells[0].value, indent + INDENT_SIZE);
      StyledMembersDepth(cells[1..], indent);
      assert StyledMembers(cells, indent)[1..] == StyledMembers(cells[1..], indent);
    }
  }

  // Names printed as C strings end at their first zero byte, so a value read back
  // from styled text never has one.

  ghost predicate NulFreeCells(cells: seq<Cell>) {
    forall c | c in cells :: '\0' !in NameOf(c) && NulFree(c.value)
  }

  lemma {:induction false} PutNulFree(cells: seq<Cell>, name: string, v: Value)
    requires NulFreeCells(cells) && '\0' !in name && NulFree(v)
    ensures NulFreeCells(Put(cells, Name(name), v))
  {
    hide NulFree, KeyLess;
    if cells != [] {
      assert cells[0] in cells;
      forall c | c in cells[1..] ensures '\0' !in NameOf(c) && NulFree(c.value) {
        assert c in cells;
      }
      PutNulFree(cells[1..], name, v);
    }
  }

  lemma {:induction false} FoldedNulFree(cells: seq<Cell>, members: seq<Member>)
    requires NulFreeCells(cells)
    requires forall m | m in members :: '\0' !in m.name && NulFree(Spelled(m.value.node))
    ensures NulFreeCells(Folded(cells, members))
    decreases members
  {
    hide NulFree, Spelled, Put, NulFreeCells;
    if members != [] {
      assert members[0] in members;
      PutNulFree(cells, members[0].name, Spelled(members[0].value.node));
      forall m | m in members[1..] ensures '\0' !in m.name && NulFree(Spelled(m.value.node)) {
        assert m in members;
      }
      FoldedNulFree(Put(cells, Name(members[0].name), Spelled(members[0].value.node)), members[1..]);
    }
  }

  lemma {:induction false} CellsNulFree(cells: seq<Cell>, items: seq<Item>)
    requires forall c | c in cells :: NulFree(c.value)
    requires forall i | i in items :: NulFree(Spelled(i.node))
    ensures forall c | c in Cells(cells, items) :: NulFree(c.value)
    decreases items
  {
    hide NulFree, Spelled;
    if items != [] {
      assert items[0] in items;
      CellsNulFree(cells + [Cell(Index(|cells|), Spelled(items[0].node))], items[1..]);
    }
  }

  lemma {:induction false} StyledNulFree(v: Value, indent: nat)
    ensures NulFree(Spelled(StyledLayout(v, indent)))
    decreases v, 1
  {
    hide Multiline;
    match v
    case Arr(items) =>
      if Multiline(items) {
        StyledItemsNulFree(items, NewLine(indent + INDENT_SIZE), NewLine(indent), indent + INDENT_SIZE);
        CellsNulFree([], StyledItems(items, NewLine(indent + INDENT_SIZE), NewLine(indent), indent + INDENT_SIZE));
      } else {
        StyledItemsNulFree(items, " ", " ", indent);
        CellsNulFree([], StyledItems(items, " ", " ", indent));
      }
    case Obj(members) =>
      StyledMembersNulFree(members, indent);
      FoldedNulFree([], StyledMembers(members, indent));
    case Int(_) =>
    case UInt(_) =>
    case _ =>
  }

  lemma {:induction false} StyledItemsNulFree(cells: seq<Cell>, before: string, end: string, indent: nat)
    ensures forall i | i in StyledItems(cells, before, end, indent) :: NulFree(Spelled(i.node))
    decreases cells, 0
  {
    hide NulFree, Spelled, StyledLayout;
    if cells != [] {
      assert cells[0].value < cells[0];
      StyledNulFree(cells[0].value, indent);
      StyledItemsNulFree(cells[1..], before, end, indent);
    }
  }

  lemma {:induction false} StyledMembersNulFree(cells: seq<Cell>, indent: nat)
    ensures forall m | m in StyledMembers(cells, indent) :: '\0' !in m.name && NulFree(Spelled(m.value.node))
    decreases cells, 0
  {
    hide NulFree, Spelled, StyledLayout, CString;
    if cells != [] {
      assert cells[0].value < cells[0];
      WholeCString(NameOf(cells[0]));
      StyledNulFree(cells[0].value, indent + INDENT_SIZE);
      StyledMembersNulFree(cells[1..], indent);
    }
  }

  lemma {:induction false} NormalNulFree(v: Value)
    ensures NulFree(Normal(v)) <==> NulFree(v)
    decreases v, 1
  {
    match v
    case Arr(items) => NormalCellsNulFree(items);
    case Obj(members) => NormalCellsNulFree(members);
    case _ =>
  }

  lemma {:induction false} NormalCellsNulFree(cells: seq<Cell>)
    ensures (forall c | c in NormalCells(cells) :: NulFree(c.value)) <==> (forall c | c in cells :: NulFree(c.value))
    ensures NulFreeCells(NormalCells(cells)) <==> NulFreeCells(cells)
    decreases cells, 0
  {
    hide NulFree, Normal;
    if cells != [] {
      assert cells[0].value < cells[0];
      NormalNulFree(cells[0].value);
      NormalCellsNulFree(cells[1..]);
      assert cells == [cells[0]] + cells[1..];
    }
  }

  /** Parsing what `StyledWriter::write` prints gives the value back, integers
      retagged, exactly when the value is nested at most a thousand deep and no
      member name contains a zero byte. */
  lemma StyledRoundTrip(v: Value, isDouble: string -> bool)
    requires Printable(v)
    ensures var o := Parse(Text(StyledLayout(v, 0)) + "\n", isDouble);
      && (o == Thrown <==> Nesting(v) > STACK_LIMIT)
      && (o == Read(Normal(v), "\n") <==> Nesting(v) <= STACK_LIMIT && NulFree(v))
  {
    hide *;
    StyledValid(v, 0);
    StyledDepth(v, 0);
    ParsedAlone(StyledLayout(v, 0), isDouble);
    StyledNulFree(v, 0);
    NormalNulFree(v);
    if NulFree(v) {
      StyledDenotes(v, 0);
    }
  }

  /** An object with one member whose name is a zero byte. */
  const NUL_NAMED: Value := Obj([Cell(Name(['\0']), Null)])

  lemma NulNamePrints()
    ensures Printable(NUL_NAMED) && Nesting(NUL_NAMED) <= STACK_LIMIT && !NulFree(NUL_NAMED)
  {
    var c := Cell(Name(['\0']), Null);
    assert c in NUL_NAMED.members;
  }

  /** What is read back of it is another value. */
  lemma NulNameIsLost(isDouble: string -> bool)
    ensures Parse(Text(StyledLayout(NUL_NAMED, 0)) + "\n", isDouble) != Read(Normal(NUL_NAMED), "\n")
  {
    NulNamePrints();
    hide *;
    StyledRoundTrip(NUL_NAMED, isDouble);
  }

  // ---------------------------------------------------------------- printing again

  lemma ScalarReprint(v: Value)
    requires !v.Arr? && !v.Obj?
    ensures Text(FastLayout(Normal(v))) == Text(FastLayout(v))
    ensures forall n: nat :: StyledLayout(v, n) == FastLayout(v) && StyledLayout(Normal(v), n) == FastLayout(Normal(v))
  {
  }

  lemma {:induction false} FastReprint(v: Value)
    ensures Text(FastLayout(Normal(v))) == Text(FastLayout(v))
    decreases v, 1
  {
    hide FastItems, FastMembers, ItemsText, MembersText;
    match v
    case Arr(items) => if items != [] { FastItemsReprint(items); }
    case Obj(members) => if members != [] { FastMembersReprint(members); }
    case _ => ScalarReprint(v);
  }

  lemma {:induction false} FastItemsReprint(cells: seq<Cell>)
    requires cells != []
    ensures ItemsText(FastItems(NormalCells(cells))) == ItemsText(FastItems(cells))
    decreases cells, 0
  {
    hide Text, FastLayout, Normal;
    assert cells[0].value < cells[0];
    FastReprint(cells[0].value);
    assert FastItems(cells)[1..] == FastItems(cells[1..]);
    assert NormalCells(cells)[1..] == NormalCells(cells[1..]);
    assert FastItems(NormalCells(cells))[1..] == FastItems(NormalCells(cells[1..]));
    if |cells| > 1 {
      FastItemsReprint(cells[1..]);
    }
  }

  lemma {:induction false} FastMembersReprint(cells: seq<Cell>)
    requires cells != []
    ensures MembersText(FastMembers(NormalCells(cells))) == MembersText(FastMembers(cells))
    decreases cells, 0
  {
    hide Text, FastLayout, Normal, Quoted;
    assert cells[0].value < cells[0];
    FastReprint(cells[0].value);
    assert FastMembers(cells)[1..] == FastMembers(cells[1..]);
    assert NormalCells(cells)[1..] == NormalCells(cells[1..]);
    assert FastMembers(NormalCells(cells))[1..] == FastMembers(NormalCells(cells[1..]));
    if |cells| > 1 {
      FastMembersReprint(cells[1..]);
    }
  }

  lemma {:induction false} SameShape(cells: seq<Cell>)
    ensures AllFlat(NormalCells(cells)) == AllFlat(cells) && TextLength(NormalCells(cells)) == TextLength(cells)
  {
    hide Text, FastLayout, AllFlat, Flat, Normal;
    if cells != [] {
      FastReprint(cells[0].value);
      NormalFlat(cells[0].value);
      SameShape(cells[1..]);
      assert NormalCells(cells)[1..] == NormalCells(cells[1..]);
      AllFlatNext(cells);
      AllFlatNext(NormalCells(cells));
    }
  }

  lemma NormalFlat(v: Value)
    ensures Flat(Normal(v)) == Flat(v)
  {
  }

  lemma AllFlatNext(cells: seq<Cell>)
    requires cells != []
    ensures AllFlat(cells) <==> Flat(cells[0].value) && AllFlat(cells[1..])
  {
    hide Flat;
    assert cells == [cells[0]] + cells[1..];
  }

  lemma {:induction false} StyledReprint(v: Value, indent: nat)
    ensures Text(StyledLayout(Normal(v), indent)) == Text(StyledLayout(v, indent))
    decreases v, 1
  {
    hide Multiline, StyledItems, StyledMembers, NormalCells, NewLine, ItemsText, MembersText;
    match v
    case Arr(items) =>
      SameMultiline(items);
      if items != [] {
        if Multiline(items) {
          StyledItemsReprint(items, NewLine(indent + INDENT_SIZE), NewLine(indent), indent + INDENT_SIZE);
        } else {
          StyledItemsReprint(items, " ", " ", indent);
        }
      }
    case Obj(members) => if members != [] { StyledMembersReprint(members, indent); }
    case _ => ScalarReprint(v);
  }

  lemma SameMultiline(cells: seq<Cell>)
    ensures Multiline(NormalCells(cells)) == Multiline(cells)
  {
    hide AllFlat, TextLength;
    SameShape(cells);
  }

  lemma {:induction false} StyledItemsReprint(cells: seq<Cell>, before: string, end: string, indent: nat)
    requires cells != []
    ensures ItemsText(StyledItems(NormalCells(cells), before, end, indent)) ==
      ItemsText(StyledItems(cells, before, end, indent))
    decreases cells, 0
  {
    hide Text, StyledLayout, Normal;
    assert cells[0].value < cells[0];
    StyledReprint(cells[0].value, indent);
    assert StyledItems(cells, before, end, indent)[1..] == StyledItems(cells[1..], before, end, indent);
    assert NormalCells(cells)[1..] == NormalCells(cells[1..]);
    assert StyledItems(NormalCells(cells), before, end, indent)[1..] ==
      StyledItems(NormalCells(cells[1..]), before, end, indent);
    if |cells| > 1 {
      StyledItemsReprint(cells[1..], before, end, indent);
    }
  }

  lemma {:induction false} StyledMembersReprint(cells: seq<Cell>, indent: nat)
    requires cells != []
    ensures MembersText(StyledMembers(NormalCells(cells), indent)) == MembersText(StyledMembers(cells, indent))
    decreases cells, 0
  {
    hide Text, StyledLayout, Normal, Quoted, CString, NewLine;
    assert cells[0].value < cells[0];
    StyledReprint(cells[0].value, indent + INDENT_SIZE);
    assert StyledMembers(cells, indent)[1..] == StyledMembers(cells[1..], indent);
    assert NormalCells(cells)[1..] == NormalCells(cells[1..]);
    assert StyledMembers(NormalCells(cells), indent)[1..] == StyledMembers(NormalCells(cells[1..]), indent);
    if |cells| > 1 {
      StyledMembersReprint(cells[1..], indent);
    }
  }
}
