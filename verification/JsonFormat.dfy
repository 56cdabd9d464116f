/** How the writers lay their text out: the fast one leaves no space, the styled one writes an
    array on one line exactly when it fits and is flat, and indents everything else. */
module JsonFormat {
  import opened JsonValue
  import opened JsonLayout
  import opened JsonWriter

  /** No white space outside strings. */
  ghost predicate Compact(l: Layout)
    decreases l
  {
    match l
    case Atom(_) => true
    case List(lead, items) =>
      lead == "" && forall k | 0 <= k < |items| ::
        items[k].before == "" && items[k].after == "" && Compact(items[k].node)
    case Table(lead, members) =>
      lead == "" && forall k | 0 <= k < |members| ::
        members[k].beforeName == "" && members[k].beforeColon == ""
        && members[k].value.before == "" && members[k].value.after == "" && Compact(members[k].value.node)
  }

  lemma {:induction false} FastIsCompact(v: Value)
    ensures Compact(FastLayout(v))
    decreases v
  {
    if v.Arr? {
      forall k | 0 <= k < |v.items| ensures FastItems(v.items)[k].before == FastItems(v.items)[k].after == ""
        && Compact(FastItems(v.items)[k].node) {
        FastItemAt(v.items, k);
        assert v.items[k].value < v.items[k];
        FastIsCompact(v.items[k].value);
      }
    } else if v.Obj? {
      forall k | 0 <= k < |v.members| ensures var m := FastMembers(v.members)[k];
        m.beforeName == m.beforeColon == m.value.before == m.value.after == "" && Compact(m.value.node) {
        FastMemberAt(v.members, k);
        assert v.members[k].value < v.members[k];
        FastIsCompact(v.members[k].value);
      }
    }
  }

  // ---------------------------------------------------------------- arrays on one line

  lemma {:induction false} LineLength(cells: seq<Cell>, indent: nat)
    requires cells != [] && AllFlat(cells)
    ensures |ItemsText(StyledItems(cells, " ", " ", indent))| == 1 + 2 * |cells| + TextLength(cells)
  {
    var items := StyledItems(cells, " ", " ", indent);
    assert cells[0] in cells;
    FlatText(cells[0].value, indent);
    StyledItemFirst(cells, " ", " ", indent);
    hide StyledLayout, Text, FastLayout, StyledItems;
    if |cells| > 1 {
      assert forall c | c in cells[1..] :: c in cells;
      LineLength(cells[1..], indent);
      assert |ItemsText(items)| == 1 + |Text(items[0].node)| + 1 + |ItemsText(items[1..])|;
    } else {
      assert TextLength(cells[1..]) == 0;
    }
  }

  lemma StyledItemFirst(cells: seq<Cell>, before: string, end: string, indent: nat)
    requires cells != []
    ensures var items := StyledItems(cells, before, end, indent);
      && items[0] == Item(before, StyledLayout(cells[0].value, indent), if |cells| == 1 then end else "")
      && items[1..] == StyledItems(cells[1..], before, end, indent)
  {
    hide StyledLayout;
  }

  /** The text on one line, and how long it is. */
  lemma OneLineLength(cells: seq<Cell>, indent: nat)
    requires cells != [] && AllFlat(cells)
    ensures |Text(List("", StyledItems(cells, " ", " ", indent)))| == 4 + (|cells| - 1) * 2 + TextLength(cells)
  {
    LineLength(cells, indent);
    hide StyledItems, ItemsText;
  }

  /** An array is written on one line exactly when none of its items is a filled container, it has
      fewer than 25 of them, and the line is shorter than 74 characters. (Counts are taken to fit
      in 32 bits here.) */
  lemma OneLineExactlyWhen(cells: seq<Cell>, indent: nat)
    requires cells != [] && 3 * |cells| < 0x1_0000_0000 && 2 + 2 * |cells| + TextLength(cells) < 0x1_0000_0000
    ensures !Multiline(cells) <==>
      && (forall c | c in cells :: !(c.value.Arr? && c.value.items != []) && !(c.value.Obj? && c.value.members != []))
      && |cells| < 25 && |Text(List("", StyledItems(cells, " ", " ", indent)))| < 74
  {
    assert AllFlat(cells) <==>
      forall c | c in cells :: !(c.value.Arr? && c.value.items != []) && !(c.value.Obj? && c.value.members != []);
    hide Text, StyledItems, TextLength;
    if AllFlat(cells) {
      OneLineLength(cells, indent);
    }
  }

  // ---------------------------------------------------------------- lines and indentation

  lemma {:induction false} StyledItemAt(cells: seq<Cell>, before: string, end: string, indent: nat, k: nat)
    requires k < |cells|
    ensures StyledItems(cells, before, end, indent)[k] ==
      Item(before, StyledLayout(cells[k].value, indent), if k == |cells| - 1 then end else "")
  {
    StyledItemFirst(cells, before, end, indent);
    hide StyledItems;
    if k > 0 {
      StyledItemAt(cells[1..], before, end, indent, k - 1);
      assert StyledItems(cells, before, end, indent)[k] == StyledItems(cells, before, end, indent)[1..][k - 1];
    }
  }

  lemma {:induction false} StyledMemberAt(cells: seq<Cell>, indent: nat, k: nat)
    requires k < |cells|
    ensures StyledMembers(cells, indent)[k] ==
      Member("\n" + Spaces(indent + 3), CString(NameOf(cells[k])), " ",
             Item(" ", StyledLayout(cells[k].value, indent + 3),
                  if k == |cells| - 1 then "\n" + Spaces(indent) else ""))
  {
    hide StyledLayout;
    if k > 0 {
      StyledMemberAt(cells[1..], indent, k - 1);
    }
  }

  /** Each item of any other array, and each member, stands on a line of its own, three spaces
      further in than its container, which is closed on a line at its own indentation; names and
      values are parted by a colon between two spaces. */
  lemma Indented(v: Value, indent: nat, k: nat)
    ensures v.Arr? && Multiline(v.items) && k < |v.items| ==>
      (var l := StyledLayout(v, indent);
        && |l.items| == |v.items| && l.lead == ""
        && l.items[k] == Item("\n" + Spaces(indent + 3), StyledLayout(v.items[k].value, indent + 3),
                              if k == |v.items| - 1 then "\n" + Spaces(indent) else ""))
    ensures v.Arr? && !Multiline(v.items) && k < |v.items| ==>
      (var l := StyledLayout(v, indent);
        && |l.items| == |v.items| && l.lead == ""
        && l.items[k] == Item(" ", StyledLayout(v.items[k].value, indent), if k == |v.items| - 1 then " " else ""))
    ensures v.Obj? && k < |v.members| ==>
      (var l := StyledLayout(v, indent);
        && |l.members| == |v.members| && l.lead == ""
        && l.members[k] == Member("\n" + Spaces(indent + 3), CString(NameOf(v.members[k])), " ",
             Item(" ", StyledLayout(v.members[k].value, indent + 3),
                  if k == |v.members| - 1 then "\n" + Spaces(indent) else "")))
  {
    if v.Arr? && k < |v.items| {
      if Multiline(v.items) {
        StyledItemAt(v.items, NewLine(indent + 3), NewLine(indent), indent + 3, k);
      } else {
        StyledItemAt(v.items, " ", " ", indent, k);
      }
    } else if v.Obj? && k < |v.members| {
      StyledMemberAt(v.members, indent, k);
    }
    hide StyledItems, StyledMembers, Multiline;
  }
}
