/** What an object holds after it is read: members may be listed in any order and more than
    once, and the last listing of a name stands. */
module JsonMembers {
  import opened JsonValue
  import opened JsonOrder
  import opened JsonText
  import opened JsonGrammar
  import opened JsonLayout

  /** The cell is listed, and its key not again later. */
  ghost predicate Stands(listed: seq<Cell>, c: Cell) {
    exists k :: 0 <= k < |listed| && listed[k] == c && forall j | k < j < |listed| :: listed[j].key != c.key
  }

  /** Of every listed name the last cell, and nothing else, in the order of the names. */
  ghost predicate HoldsJust(cells: seq<Cell>, listed: seq<Cell>) {
    Sorted(cells, false) && forall c :: c in cells <==> Stands(listed, c)
  }

  /** A cell put there is there, and no other with its key; all others stay. */
  lemma {:induction false} PutIs(cells: seq<Cell>, key: Key, v: Value)
    requires Sorted(cells, false) && key.Name?
    ensures Sorted(Put(cells, key, v), false)
    ensures forall c :: c in Put(cells, key, v) <==> c == Cell(key, v) || (c in cells && c.key != key)
  {
    hide BytesLess;
    if cells == [] {
    } else if KeyLess(key, cells[0].key) {
      PutFirst(cells, key, v);
    } else {
      assert cells == [cells[0]] + cells[1..];
      KeyTrichotomy(cells[0].key, key);
      KeyTrichotomy(key, key);
      if cells[0].key != key {
        PutIs(cells[1..], key, v);
        PutLater(cells, key, v);
      } else {
        assert forall c | c in cells[1..] :: KeyLess(key, c.key);
      }
    }
  }

  lemma PutFirst(cells: seq<Cell>, key: Key, v: Value)
    requires Sorted(cells, false) && key.Name? && cells != [] && KeyLess(key, cells[0].key)
    ensures Sorted([Cell(key, v)] + cells, false)
    ensures forall c | c in cells :: c.key != key
  {
    hide KeyLess;
    forall k | 0 <= k < |cells| ensures KeyLess(key, cells[k].key) && cells[k].key != key {
      if k > 0 {
        KeyTransitive(key, cells[0].key, cells[k].key);
      }
      KeyTrichotomy(key, cells[k].key);
    }
  }

  lemma PutLater(cells: seq<Cell>, key: Key, v: Value)
    requires Sorted(cells, false) && cells != [] && KeyLess(cells[0].key, key)
    requires Sorted(Put(cells[1..], key, v), false)
    requires forall c :: c in Put(cells[1..], key, v) <==> c == Cell(key, v) || (c in cells[1..] && c.key != key)
    ensures Sorted([cells[0]] + Put(cells[1..], key, v), false)
  {
    hide KeyLess, Put;
    var rest := Put(cells[1..], key, v);
    forall k | 0 <= k < |rest| ensures KeyLess(cells[0].key, rest[k].key) {
      assert rest[k] in rest;
      if rest[k] != Cell(key, v) {
        var j :| 0 <= j < |cells[1..]| && cells[1..][j] == rest[k];
        assert cells[j + 1] == rest[k];
      }
    }
  }

  /** One more listed member. */
  lemma PutHoldsJust(cells: seq<Cell>, listed: seq<Cell>, key: Key, v: Value)
    requires HoldsJust(cells, listed) && key.Name?
    ensures HoldsJust(Put(cells, key, v), listed + [Cell(key, v)])
  {
    PutIs(cells, key, v);
    hide Put, Sorted;
    forall c ensures Stands(listed + [Cell(key, v)], c) <==> c == Cell(key, v) || (Stands(listed, c) && c.key != key) {
      StandsMore(listed, Cell(key, v), c);
    }
    hide Stands;
  }

  lemma StandsMore(listed: seq<Cell>, last: Cell, c: Cell)
    ensures Stands(listed + [last], c) <==> c == last || (Stands(listed, c) && c.key != last.key)
  {
    var more := listed + [last];
    assert c == last ==> more[|listed|] == c;
    if Stands(listed, c) && c.key != last.key {
      var k :| 0 <= k < |listed| && listed[k] == c && forall j | k < j < |listed| :: listed[j].key != c.key;
      assert more[k] == c;
    }
    if Stands(more, c) && c != last {
      var k :| 0 <= k < |more| && more[k] == c && forall j | k < j < |more| :: more[j].key != c.key;
      assert listed[k] == c && more[|listed|].key != c.key;
      assert forall j | k < j < |listed| :: listed[j] == more[j];
    }
  }

  /** Looking a name up gives the value of its last listing, and nothing if it is not listed. */
  lemma LookedUp(cells: seq<Cell>, listed: seq<Cell>, name: string)
    requires HoldsJust(cells, listed)
    ensures (exists c :: c in cells && c.key == Name(name)) <==> exists c :: c in listed && c.key == Name(name)
    ensures forall b, c | b in cells && c in cells && b.key == c.key :: b == c
  {
    if c :| c in cells && c.key == Name(name) {
      assert Stands(listed, c);
    }
    if c :| c in listed && c.key == Name(name) {
      var last := LastListing(listed, Name(name));
      assert Stands(listed, last);
    }
    forall b, c | b in cells && c in cells && b.key == c.key ensures b == c {
      assert Stands(listed, b) && Stands(listed, c);
    }
  }

  lemma {:induction false} LastListing(listed: seq<Cell>, key: Key) returns (last: Cell)
    requires exists c :: c in listed && c.key == key
    ensures last.key == key && Stands(listed, last)
  {
    var n := |listed| - 1;
    assert listed == listed[..n] + [listed[n]];
    if listed[n].key == key {
      last := listed[n];
    } else {
      last := LastListing(listed[..n], key);
    }
    StandsMore(listed[..n], listed[n], last);
  }

  // ---------------------------------------------------------------- layouts

  /** The members of a layout, in the order of the text. */
  function Listing(members: seq<Member>): seq<Cell> {
    seq(|members|, k requires 0 <= k < |members| => Cell(Name(members[k].name), Spelled(members[k].value.node)))
  }

  lemma {:induction false} FoldedHoldsJust(cells: seq<Cell>, done: seq<Cell>, members: seq<Member>)
    requires HoldsJust(cells, done)
    ensures HoldsJust(Folded(cells, members), done + Listing(members))
    decreases members
  {
    hide HoldsJust, Put, Spelled;
    if members == [] {
      assert done + Listing(members) == done;
    } else {
      var key, v := Name(members[0].name), Spelled(members[0].value.node);
      PutHoldsJust(cells, done, key, v);
      FoldedHoldsJust(Put(cells, key, v), done + [Cell(key, v)], members[1..]);
      assert done + Listing(members) == done + [Cell(key, v)] + Listing(members[1..]);
    }
  }

  /** An object spelled by any spaced-out text, its members in any order, holds just what was
      listed last under each name. */
  lemma ObjectRead(lead: string, members: seq<Member>, before: string, rest: string, isDouble: string -> bool)
    requires Valid(Table(lead, members)) && AllSpace(before) && EndsNumber(rest)
    requires Depth(Table(lead, members)) <= STACK_LIMIT
    ensures var o := Parse(before + (Text(Table(lead, members)) + rest), isDouble);
      o.Read? && o.rest == rest && o.value.Obj? && HoldsJust(o.value.members, Listing(members))
  {
    hide Text, Depth, Valid, ReadValue, EndsNumber, AllSpace, Listing, Folded;
    LayoutRead(Table(lead, members), before, rest, 1, isDouble);
    FoldedHoldsJust([], [], members);
    assert [] + Listing(members) == Listing(members);
  }

  // ---------------------------------------------------------------- any text

  /** The members of an object whose text goes on with `s`, up to its end or an error. */
  function MembersListed(s: string, depth: nat, isDouble: string -> bool): seq<Cell>
    decreases |s|
  {
    var name := NextToken(s);
    var colon := ReadToken(name.rest);
    if name.kind != StringToken || Unescaped(Content(name.lexeme)).None? || colon.kind != MemberSeparator then []
    else
      match ReadValue(colon.rest, depth + 1, isDouble)
      case Read(v, rest) =>
        var comma := ReadToken(rest);
        var after := if comma.kind == Comment then NextToken(comma.rest) else comma;
        [Cell(Name(Unescaped(Content(name.lexeme)).value), v)] +
          (if (comma.kind == Separator || comma.kind == Comment) && after.kind != ObjectEnd
           then MembersListed(after.rest, depth, isDouble) else [])
      case _ => []
  }

  lemma ObjectHolds(s: string, depth: nat, isDouble: string -> bool)
    ensures var o := ReadMembers(s, [], "", depth, isDouble);
      o.Read? ==> o.value.Obj? && HoldsJust(o.value.members, MembersListed(s, depth, isDouble))
  {
    hide ReadMembers, MembersListed;
    if ReadMembers(s, [], "", depth, isDouble).Read? {
      MembersHeld(s, [], [], "", depth, isDouble);
      assert [] + MembersListed(s, depth, isDouble) == MembersListed(s, depth, isDouble);
    }
  }

  /** A member that is read whole, up to the separator after it. */
  lemma MemberRead(s: string, cells: seq<Cell>, last: string, depth: nat, isDouble: string -> bool)
    requires ReadMembers(s, cells, last, depth, isDouble).Read?
    ensures var name := NextToken(s);
      (name.kind == ObjectEnd && last == "" && ReadMembers(s, cells, last, depth, isDouble).value == Obj(cells)) ||
      (var colon, text := ReadToken(name.rest), Unescaped(Content(name.lexeme));
       && name.kind == StringToken && text.Some? && colon.kind == MemberSeparator
       && var o := ReadValue(colon.rest, depth + 1, isDouble);
         o.Read? && ReadMembers(s, cells, last, depth, isDouble) ==
           EndMember(o.rest, Put(cells, Name(text.value), o.value), text.value, depth, isDouble))
  {
    hide Put, NextToken, ReadToken, Unescaped, Content, ReadValue, Recover, EndMember;
  }

  lemma MemberEnded(s: string, cells: seq<Cell>, key: string, depth: nat, isDouble: string -> bool)
    requires EndMember(s, cells, key, depth, isDouble).Read?
    ensures var comma := ReadToken(s);
      var after := if comma.kind == Comment then NextToken(comma.rest) else comma;
      (after.kind == ObjectEnd && EndMember(s, cells, key, depth, isDouble).value == Obj(cells)) ||
      (after.kind != ObjectEnd && (comma.kind == Separator || comma.kind == Comment)
       && EndMember(s, cells, key, depth, isDouble) == ReadMembers(after.rest, cells, key, depth, isDouble))
  {
    hide NextToken, ReadToken, Recover, ReadMembers;
  }

  /** Whatever the text, an object that is read holds just what was listed last under each name. */
  lemma {:induction false} MembersHeld(s: string, cells: seq<Cell>, done: seq<Cell>, last: string, depth: nat,
                                       isDouble: string -> bool)
    requires HoldsJust(cells, done) && ReadMembers(s, cells, last, depth, isDouble).Read?
    ensures var v := ReadMembers(s, cells, last, depth, isDouble).value;
      v.Obj? && HoldsJust(v.members, done + MembersListed(s, depth, isDouble))
    decreases |s|
  {
    hide HoldsJust, Put, NextToken, ReadToken, Unescaped, Content, ReadValue, Recover, ReadMembers, EndMember;
    MemberRead(s, cells, last, depth, isDouble);
    var name := NextToken(s);
    if name.kind == ObjectEnd {
      assert done + [] == done;
    } else {
      var text, colon := Unescaped(Content(name.lexeme)).value, ReadToken(name.rest);
      var o := ReadValue(colon.rest, depth + 1, isDouble);
      var cell := Cell(Name(text), o.value);
      PutHoldsJust(cells, done, cell.key, o.value);
      MemberEnded(o.rest, Put(cells, cell.key, o.value), text, depth, isDouble);
      var comma := ReadToken(o.rest);
      var after := if comma.kind == Comment then NextToken(comma.rest) else comma;
      if after.kind == ObjectEnd {
        assert [cell] + [] == [cell];
      } else {
        MembersHeld(after.rest, Put(cells, cell.key, o.value), done + [cell], text, depth, isDouble);
        MoreListed(done, cell, MembersListed(after.rest, depth, isDouble));
      }
    }
  }

  lemma MoreListed(done: seq<Cell>, cell: Cell, more: seq<Cell>)
    ensures done + [cell] + more == done + ([cell] + more)
  {
  }
}
