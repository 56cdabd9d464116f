/** The search for pairs, triples and quadruples among sorted cards, the order of
    the groups found, and the cards left over. */
module PokerGroups {
  import opened Wrappers
  import opened PokerRanking
  import opened PokerStraight

  /** The cards left in a list in which taken cards are null. */
  function Compact(helper: seq<Option<Card>>): (r: seq<Card>) {
    if helper == [] then [] else (if helper[0].Some? then [helper[0].value] else []) + Compact(helper[1..])
  }

  lemma {:induction false} CompactAppend(a: seq<Option<Card>>, b: seq<Option<Card>>)
    ensures Compact(a + b) == Compact(a) + Compact(b)
  {
    if a == [] {
      assert a + b == b;
    } else {
      var ab := a + b;
      assert ab[0] == a[0] && ab[1..] == a[1..] + b;
      CompactAppend(a[1..], b);
      var first: seq<Card> := if a[0].Some? then [a[0].value] else [];
      assert Compact(a) == first + Compact(a[1..]);
      assert Compact(ab) == first + Compact(a[1..] + b);
    }
  }

  function Listed(cards: seq<Card>): seq<Option<Card>> {
    seq(|cards|, i requires 0 <= i < |cards| => Some(cards[i]))
  }

  lemma {:induction false} CompactListed(cards: seq<Card>)
    ensures Compact(Listed(cards)) == cards
  {
    if cards != [] {
      assert Listed(cards)[1..] == Listed(cards[1..]);
      CompactListed(cards[1..]);
    }
  }

  /** Cards of one rank. */
  ghost predicate Uniform(group: seq<Card>) {
    forall c | c in group :: Rank(c) == Rank(group[0])
  }

  lemma {:induction false} UniformCount(group: seq<Card>, r: int)
    requires Uniform(group)
    ensures Count(group, r) == if group != [] && Rank(group[0]) == r then |group| else 0
  {
    if group != [] {
      assert group[0] in group;
      if group[1..] != [] {
        assert group[1..][0] in group;
      }
      UniformCount(group[1..], r);
    }
  }

  /** All the cards of a rank held more than once. */
  ghost predicate WholeGroup(all: seq<Card>, group: seq<Card>) {
    Uniform(group) && (group != [] ==> |group| == Count(all, Rank(group[0])) >= 2)
  }

  /** Cards of ranks held once, in ascending order. */
  ghost predicate Singles(all: seq<Card>, rest: seq<Card>) {
    RankOrdered(rest) && forall c | c in rest :: Count(all, Rank(c)) == 1
  }

  ghost predicate Split(all: seq<Card>, groups: seq<seq<Card>>, rest: seq<Card>) {
    |groups| == 3 && multiset(all) == multiset(groups[0]) + multiset(groups[1]) + multiset(groups[2]) + multiset(rest)
  }

  /** The cards are sorted into whole groups and singles. */
  ghost predicate Found(all: seq<Card>, groups: seq<seq<Card>>, rest: seq<Card>) {
    && Split(all, groups, rest) && Singles(all, rest)
    && WholeGroup(all, groups[0]) && WholeGroup(all, groups[1]) && WholeGroup(all, groups[2])
  }

  /** Before card `i` is looked at: closed groups, an open group of the cards of
      its rank above it, and singles above it. */
  ghost predicate Finding(all: seq<Card>, i: nat, groups: seq<seq<Card>>, idx: nat, rest: seq<Card>) {
    && i < |all| && idx <= 3 && |groups| == 3
    && Split(all[i + 1..], groups, rest) && Singles(all, rest)
    && (rest != [] ==> Rank(all[i]) <= Rank(rest[0]))
    && (forall k | 0 <= k < idx :: WholeGroup(all, groups[k]) && groups[k] != [])
    && (forall k | idx < k < 3 :: groups[k] == [])
    && (idx < 3 ==> forall c | c in groups[idx] :: Rank(c) == Rank(all[i]))
    && Count(all[i + 1..], Rank(all[i])) == (if idx < 3 then |groups[idx]| else 0)
  }

  lemma CountFrom(all: seq<Card>, i: nat, r: int)
    requires i < |all|
    ensures Count(all[i..], r) == (if Rank(all[i]) == r then 1 else 0) + Count(all[i + 1..], r)
  {
    assert all[i..][1..] == all[i + 1..];
  }

  lemma {:induction false} CountBelow(cards: seq<Card>, r: int)
    requires forall c | c in cards :: Rank(c) != r
    ensures Count(cards, r) == 0
  {
    if cards != [] {
      assert cards[0] in cards;
      CountBelow(cards[1..], r);
    }
  }

  /** The rank of card `i` is not held below position `i`. */
  lemma LowestOfRank(all: seq<Card>, i: nat)
    requires RankOrdered(all) && 0 < i < |all| && Rank(all[i]) != Rank(all[i - 1])
    ensures Count(all, Rank(all[i])) == 1 + Count(all[i + 1..], Rank(all[i]))
    ensures Count(all[i..], Rank(all[i - 1])) == 0
  {
    hide Count;
    CountFrom(all, i, Rank(all[i]));
    assert all == all[..i] + all[i..];
    CountAppend(all[..i], all[i..], Rank(all[i]));
    CountBelow(all[..i], Rank(all[i]));
    CountBelow(all[i..], Rank(all[i - 1]));
  }

  lemma SplitTake(all: seq<Card>, i: nat, groups: seq<seq<Card>>, idx: nat, rest: seq<Card>)
    requires i < |all| && idx < 3 && Split(all[i + 1..], groups, rest)
    ensures Split(all[i..], groups[idx := groups[idx] + [all[i]]], rest)
  {
    assert all[i..] == [all[i]] + all[i + 1..];
  }

  lemma SplitLeave(all: seq<Card>, i: nat, groups: seq<seq<Card>>, rest: seq<Card>)
    requires i < |all| && Split(all[i + 1..], groups, rest)
    ensures Split(all[i..], groups, [all[i]] + rest)
  {
    assert all[i..] == [all[i]] + all[i + 1..];
  }

  /** Two cards more than each closed group holds are needed for the next. */
  lemma FewGroups(all: seq<Card>, i: nat, groups: seq<seq<Card>>, idx: nat, rest: seq<Card>)
    requires |all| <= 7 && Finding(all, i, groups, idx, rest)
    ensures idx == 3 ==> i == 0
  {
    if idx == 3 {
      assert WholeGroup(all, groups[0]) && WholeGroup(all, groups[1]) && WholeGroup(all, groups[2]);
      assert |multiset(all[i + 1..])| == |groups[0]| + |groups[1]| + |groups[2]| + |rest|;
    }
  }

  lemma StepEqual(all: seq<Card>, i: nat, groups: seq<seq<Card>>, idx: nat, rest: seq<Card>)
    requires RankOrdered(all) && 0 < i && idx < 3 && Finding(all, i, groups, idx, rest)
    requires Rank(all[i]) == Rank(all[i - 1])
    ensures Finding(all, i - 1, groups[idx := groups[idx] + [all[i]]], idx, rest)
  {
    hide Count, Singles, Split;
    SplitTake(all, i, groups, idx, rest);
    CountFrom(all, i, Rank(all[i]));
  }

  lemma StepClose(all: seq<Card>, i: nat, groups: seq<seq<Card>>, idx: nat, rest: seq<Card>)
    requires RankOrdered(all) && 0 < i && idx < 3 && Finding(all, i, groups, idx, rest)
    requires Rank(all[i]) != Rank(all[i - 1]) && groups[idx] != []
    ensures Finding(all, i - 1, groups[idx := groups[idx] + [all[i]]], idx + 1, rest)
    ensures idx + 1 < 3 ==> groups[idx + 1] == []
  {
    hide Count, Singles, Split;
    SplitTake(all, i, groups, idx, rest);
    LowestOfRank(all, i);
    var g := groups[idx] + [all[i]];
    forall c | c in g ensures Rank(c) == Rank(all[i]) {
    }
    assert g[0] in g;
    assert WholeGroup(all, g);
  }

  lemma StepSingle(all: seq<Card>, i: nat, groups: seq<seq<Card>>, idx: nat, rest: seq<Card>)
    requires RankOrdered(all) && 0 < i && idx < 3 && Finding(all, i, groups, idx, rest)
    requires Rank(all[i]) != Rank(all[i - 1]) && groups[idx] == []
    ensures Finding(all, i - 1, groups, idx, [all[i]] + rest)
  {
    hide Count, Split;
    SplitLeave(all, i, groups, rest);
    LowestOfRank(all, i);
  }

  /** The lowest card joins the open group together with the one above it. */
  lemma LastPair(all: seq<Card>, groups: seq<seq<Card>>, idx: nat, rest: seq<Card>)
    requires RankOrdered(all) && idx < 3 && Finding(all, 0, groups, idx, rest) && groups[idx] != []
    ensures Found(all, groups[idx := groups[idx] + [all[0]]], rest)
  {
    hide Singles, Split;
    SplitTake(all, 0, groups, idx, rest);
    CountFrom(all, 0, Rank(all[0]));
    assert all[0..] == all;
    var g := groups[idx] + [all[0]];
    forall c | c in g ensures Rank(c) == Rank(all[0]) {
    }
    assert g[0] in g;
    assert WholeGroup(all, g);
    assert WholeGroup(all, []);
  }

  lemma LastSingle(all: seq<Card>, groups: seq<seq<Card>>, idx: nat, rest: seq<Card>)
    requires RankOrdered(all) && Finding(all, 0, groups, idx, rest) && (idx < 3 ==> groups[idx] == [])
    ensures Found(all, groups, [all[0]] + rest)
  {
    SplitLeave(all, 0, groups, rest);
    SingleJoins(all, groups, idx, rest);
    NoGroup(all);
    hide Split, Singles, WholeGroup, Count, RankOrdered;
    assert all[0..] == all;
  }

  lemma NoGroup(all: seq<Card>)
    ensures WholeGroup(all, [])
  {
  }

  lemma SingleJoins(all: seq<Card>, groups: seq<seq<Card>>, idx: nat, rest: seq<Card>)
    requires Finding(all, 0, groups, idx, rest) && (idx < 3 ==> groups[idx] == [])
    ensures Singles(all, [all[0]] + rest)
  {
    hide Split;
    CountFrom(all, 0, Rank(all[0]));
    assert all[0..] == all;
    hide Count;
    var more := [all[0]] + rest;
    forall c | c in more ensures Count(all, Rank(c)) == 1 {
      assert c == all[0] || c in rest;
    }
  }

  /** The list of cards still there: those up to `i`, and the singles above. */
  ghost predicate HelperIs(helper: seq<Option<Card>>, all: seq<Card>, i: nat, rest: seq<Card>) {
    && i < |all| && |helper| == |all|
    && (forall p | 0 <= p <= i :: helper[p] == Some(all[p]))
    && Compact(helper[i + 1..]) == rest
  }

  lemma HelperTake(helper: seq<Option<Card>>, all: seq<Card>, i: nat, rest: seq<Card>)
    requires 0 < i && HelperIs(helper, all, i, rest)
    ensures HelperIs(helper[i := None], all, i - 1, rest)
  {
    var h := helper[i := None];
    assert h[i..][1..] == helper[i + 1..];
  }

  lemma HelperLeave(helper: seq<Option<Card>>, all: seq<Card>, i: nat, rest: seq<Card>)
    requires 0 < i && HelperIs(helper, all, i, rest)
    ensures HelperIs(helper, all, i - 1, [all[i]] + rest)
  {
    assert helper[i..][1..] == helper[i + 1..];
  }

  lemma HelperLast(helper: seq<Option<Card>>, all: seq<Card>, rest: seq<Card>)
    requires HelperIs(helper, all, 0, rest)
    ensures Compact(helper) == [all[0]] + rest && Compact(helper[0 := None]) == rest
  {
    assert helper[0 := None][1..] == helper[1..];
  }

  lemma FindingStart(all: seq<Card>, groups: seq<seq<Card>>)
    requires all != [] && groups == [[], [], []]
    ensures Finding(all, |all| - 1, groups, 0, [])
  {
    assert all[|all|..] == [];
  }

  function Push(groups: seq<seq<Card>>, idx: nat, c: Card): (r: seq<seq<Card>>)
    requires idx < |groups|
    ensures |r| == |groups|
  {
    groups[idx := groups[idx] + [c]]
  }

  function Erase(helper: seq<Option<Card>>, i: nat): (r: seq<Option<Card>>)
    requires i < |helper|
    ensures |r| == |helper|
    ensures forall k | 0 <= k < i :: r[k] == helper[k]
  {
    helper[i := None]
  }

  /** The state of the pass when card `i` is next; at the end all is found. */
  ghost predicate Passing(all: seq<Card>, i: nat, groups: seq<seq<Card>>, idx: nat, helper: seq<Option<Card>>,
                          rest: seq<Card>) {
    if i == 0 then Found(all, groups, Compact(helper))
    else |all| <= 7 && Finding(all, i, groups, idx, rest) && HelperIs(helper, all, i, rest)
  }

  lemma PassStart(all: seq<Card>)
    requires 1 < |all| <= 7
    ensures Passing(all, |all| - 1, [[], [], []], 0, Listed(all), [])
  {
    FindingStart(all, [[], [], []]);
    assert Listed(all)[|all|..] == [];
  }

  lemma PassHas(all: seq<Card>, i: nat, groups: seq<seq<Card>>, idx: nat, helper: seq<Option<Card>>, rest: seq<Card>)
    requires 0 < i && Passing(all, i, groups, idx, helper, rest)
    ensures |groups| == 3 && idx < 3 && i < |all| == |helper|
    ensures helper[i] == Some(all[i]) && helper[i - 1] == Some(all[i - 1])
  {
    FewGroups(all, i, groups, idx, rest);
  }

  lemma PassEqual(all: seq<Card>, i: nat, groups: seq<seq<Card>>, idx: nat, helper: seq<Option<Card>>, rest: seq<Card>)
    requires RankOrdered(all) && 0 < i < |all| == |helper| && |groups| == 3 && idx < 3
    requires Passing(all, i, groups, idx, helper, rest) && Rank(all[i]) == Rank(all[i - 1])
    ensures var g, h := Push(groups, idx, all[i]), Erase(helper, i);
      if i == 1 then Passing(all, 0, Push(g, idx, all[0]), idx, Erase(h, 0), rest)
      else Passing(all, i - 1, g, idx, h, rest)
  {
    hide Finding, HelperIs, Found, RankOrdered;
    StepEqual(all, i, groups, idx, rest);
    HelperTake(helper, all, i, rest);
    if i == 1 {
      var g, h := Push(groups, idx, all[i]), Erase(helper, i);
      LastPair(all, g, idx, rest);
      HelperLast(h, all, rest);
    }
  }

  lemma PassClose(all: seq<Card>, i: nat, groups: seq<seq<Card>>, idx: nat, helper: seq<Option<Card>>, rest: seq<Card>)
    requires RankOrdered(all) && 0 < i < |all| == |helper| && |groups| == 3 && idx < 3 && groups[idx] != []
    requires Passing(all, i, groups, idx, helper, rest) && Rank(all[i]) != Rank(all[i - 1])
    ensures Passing(all, i - 1, Push(groups, idx, all[i]), idx + 1, Erase(helper, i), rest)
  {
    hide Finding, HelperIs, Found, RankOrdered;
    StepClose(all, i, groups, idx, rest);
    HelperTake(helper, all, i, rest);
    if i == 1 {
      LastSingle(all, Push(groups, idx, all[i]), idx + 1, rest);
      HelperLast(Erase(helper, i), all, rest);
    }
  }

  lemma PassSingle(all: seq<Card>, i: nat, groups: seq<seq<Card>>, idx: nat, helper: seq<Option<Card>>, rest: seq<Card>)
    requires RankOrdered(all) && 0 < i < |all| == |helper| && |groups| == 3 && idx < 3 && groups[idx] == []
    requires Passing(all, i, groups, idx, helper, rest) && Rank(all[i]) != Rank(all[i - 1])
    ensures Passing(all, i - 1, groups, idx, helper, [all[i]] + rest)
  {
    hide Finding, HelperIs, Found, RankOrdered;
    StepSingle(all, i, groups, idx, rest);
    HelperLeave(helper, all, i, rest);
    if i == 1 {
      LastSingle(all, groups, idx, [all[i]] + rest);
      HelperLast(helper, all, [all[i]] + rest);
    }
  }

  /** Card `i` joins the open group, closes it, or stays. */
  method LookAt(all: seq<Card>, i: nat, groups: seq<seq<Card>>, idx: nat, helper: seq<Option<Card>>,
                ghost rest: seq<Card>)
    returns (groups': seq<seq<Card>>, idx': nat, helper': seq<Option<Card>>, ghost rest': seq<Card>)
    requires RankOrdered(all) && Pack(all) && 0 < i && Passing(all, i, groups, idx, helper, rest)
    ensures Passing(all, i - 1, groups', idx', helper', rest')
  {
    RanksAreFaces(all);
    PassHas(all, i, groups, idx, helper, rest);
    hide *;
    groups', idx', helper', rest' := groups, idx, helper, rest;
    if helper[i].value.face == helper[i - 1].value.face {
      PassEqual(all, i, groups, idx, helper, rest);
      groups', helper' := Push(groups, idx, helper[i].value), Erase(helper, i);
      if i - 1 == 0 {
        groups', helper' := Push(groups', idx, helper'[i - 1].value), Erase(helper', i - 1);
      }
    } else if |groups[idx]| >= 1 {
      PassClose(all, i, groups, idx, helper, rest);
      groups', helper', idx' := Push(groups, idx, helper[i].value), Erase(helper, i), idx + 1;
    } else {
      PassSingle(all, i, groups, idx, helper, rest);
      rest' := [all[i]] + rest;
    }
  }

  /** One pass from the top card down: equal neighbours go into a group, the
      last card of a group closes it. */
  method FindGroups(all: seq<Card>) returns (groups: seq<seq<Card>>, helper: seq<Option<Card>>)
    requires RankOrdered(all) && Pack(all) && 1 < |all| <= 7
    ensures Found(all, groups, Compact(helper))
  {
    hide *;
    groups, helper := [[], [], []], Listed(all);
    var idx, i: nat := 0, |all| - 1;
    ghost var rest: seq<Card> := [];
    PassStart(all);
    while i > 0
      invariant i < |all| && Passing(all, i, groups, idx, helper, rest)
    {
      groups, idx, helper, rest := LookAt(all, i, groups, idx, helper, rest);
      i := i - 1;
    }
    PassEnd(all, groups, idx, helper, rest);
  }

  lemma PassEnd(all: seq<Card>, groups: seq<seq<Card>>, idx: nat, helper: seq<Option<Card>>, rest: seq<Card>)
    requires Passing(all, 0, groups, idx, helper, rest)
    ensures Found(all, groups, Compact(helper))
  {
  }

  lemma RanksAreFaces(all: seq<Card>)
    requires Pack(all)
    ensures forall i, j | 0 <= i < |all| && 0 <= j < |all| ::
      Rank(all[i]) == Rank(all[j]) <==> all[i].face == all[j].face
  {
    forall i | 0 <= i < |all| ensures ValidCard(all[i]) {
      assert all[i] in all;
    }
  }
}
