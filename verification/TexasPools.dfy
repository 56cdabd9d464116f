/** Side pools as layers of bets: which bets reach into which layer, what is left
    of them, and when the layers are nested. */
module TexasPools {

  function Sum(steps: seq<nat>): nat {
    if steps == [] then 0 else Sum(steps[..|steps| - 1]) + steps[|steps| - 1]
  }

  lemma SumAppend(steps: seq<nat>, step: nat)
    ensures Sum(steps + [step]) == Sum(steps) + step
  {
    assert (steps + [step])[..|steps|] == steps;
  }

  lemma {:induction false} SumMonotone(steps: seq<nat>, j: nat, k: nat)
    requires j <= k <= |steps|
    ensures Sum(steps[..j]) <= Sum(steps[..k])
  {
    if j < k {
      SumMonotone(steps, j, k - 1);
      assert steps[..k][..k - 1] == steps[..k - 1];
    }
  }

  lemma SumNext(steps: seq<nat>, j: nat)
    requires j < |steps|
    ensures Sum(steps[..j + 1]) == Sum(steps[..j]) + steps[j]
  {
    assert steps[..j + 1][..j] == steps[..j];
  }

  /** What the layers leave of a bet: each takes its full step or nothing. */
  function Left(bet: nat, steps: seq<nat>): nat {
    if steps == [] then bet
    else
      var left := Left(bet, steps[..|steps| - 1]);
      if left >= steps[|steps| - 1] then left - steps[|steps| - 1] else left
  }

  /** The bet pays into layer `j`. */
  predicate Takes(bet: nat, steps: seq<nat>, j: nat)
    requires j < |steps|
  {
    Left(bet, steps[..j]) >= steps[j]
  }

  lemma LeftAppend(bet: nat, steps: seq<nat>, step: nat)
    ensures Left(bet, steps + [step]) == if Left(bet, steps) >= step then Left(bet, steps) - step else Left(bet, steps)
  {
    assert (steps + [step])[..|steps|] == steps;
  }

  lemma LeftNext(bet: nat, steps: seq<nat>, j: nat)
    requires j < |steps|
    ensures Left(bet, steps[..j + 1]) ==
      if Takes(bet, steps, j) then Left(bet, steps[..j]) - steps[j] else Left(bet, steps[..j])
  {
    assert steps[..j + 1][..j] == steps[..j];
  }

  /** A bet that covers all layers pays into each. */
  lemma {:induction false} LeftCovers(bet: nat, steps: seq<nat>, j: nat)
    requires j <= |steps| && bet >= Sum(steps[..j])
    ensures Left(bet, steps[..j]) == bet - Sum(steps[..j])
    ensures forall k | 0 <= k < j :: Takes(bet, steps, k)
  {
    if j > 0 {
      SumNext(steps, j - 1);
      LeftCovers(bet, steps, j - 1);
      LeftNext(bet, steps, j - 1);
    }
  }

  ghost predicate Positive(steps: seq<nat>) {
    forall j | 0 <= j < |steps| :: steps[j] > 0
  }

  /** A bet that is exactly a level is used up. */
  lemma {:induction false} LevelIsUsedUp(bet: nat, steps: seq<nat>, j: nat, k: nat)
    requires j <= k <= |steps| && Positive(steps) && bet == Sum(steps[..j])
    ensures Left(bet, steps[..k]) == 0
    ensures forall i | j <= i < k :: !Takes(bet, steps, i)
  {
    if j == k {
      LeftCovers(bet, steps, j);
    } else {
      LevelIsUsedUp(bet, steps, j, k - 1);
      LeftNext(bet, steps, k - 1);
    }
  }

  // ---------------------------------------------------------------- the layers to given levels

  lemma {:induction false} Rising(steps: seq<nat>, j: nat, k: nat)
    requires Positive(steps) && j < k <= |steps|
    ensures Sum(steps[..j]) < Sum(steps[..k])
  {
    SumNext(steps, k - 1);
    if j < k - 1 {
      Rising(steps, j, k - 1);
    }
  }

  ghost function Top(levels: set<nat>): (m: nat)
    requires levels != {}
    ensures m in levels && forall x | x in levels :: x <= m
  {
    var x :| x in levels;
    if levels == {x} then x
    else
      assert levels - {x} != {};
      var m := Top(levels - {x});
      assert forall y | y in levels :: y == x || y in levels - {x};
      if x > m then x else m
  }

  /** The steps whose sums are the levels. */
  ghost function StepsTo(levels: set<nat>): seq<nat> {
    if levels == {} then [] else StepUp(StepsTo(levels - {Top(levels)}), Top(levels))
  }

  /** One more step, up to `top`. */
  function StepUp(steps: seq<nat>, top: nat): seq<nat> {
    steps + [if Sum(steps) <= top then top - Sum(steps) else 0]
  }

  ghost predicate IsTop(steps: seq<nat>, x: nat) {
    exists j :: 1 <= j <= |steps| && x == Sum(steps[..j])
  }

  ghost predicate AreTops(steps: seq<nat>, levels: set<nat>) {
    forall x: nat :: x in levels <==> IsTop(steps, x)
  }

  /** There is one way to reach given levels by positive steps. */
  lemma {:induction false} StepsAre(steps: seq<nat>, levels: set<nat>)
    requires Positive(steps) && AreTops(steps, levels)
    ensures steps == StepsTo(levels)
  {
    if steps == [] {
      assert forall x: nat :: x !in levels;
    } else {
      var less := steps[..|steps| - 1];
      assert steps == less + [steps[|steps| - 1]];
      hide AreTops, Sum, StepsTo;
      WithoutTop(steps, levels);
      StepsAre(less, levels - {Sum(steps)});
      hide *;
      OneMoreStepTo(less, steps[|steps| - 1], levels);
    }
  }

  lemma WithoutTop(steps: seq<nat>, levels: set<nat>)
    requires Positive(steps) && AreTops(steps, levels) && steps != []
    ensures AreTops(steps[..|steps| - 1], levels - {Sum(steps)})
    ensures Sum(steps) in levels && forall x | x in levels :: x <= Sum(steps)
  {
    hide IsTop, Sum, Positive;
    LastIsTop(steps);
    forall x: nat
      ensures IsTop(steps[..|steps| - 1], x) <==> IsTop(steps, x) && x < Sum(steps)
      ensures IsTop(steps, x) ==> x <= Sum(steps) {
      TopsBelow(steps, x);
    }
  }

  lemma OneMoreStepTo(less: seq<nat>, last: nat, levels: set<nat>)
    requires Sum(less + [last]) in levels && forall x | x in levels :: x <= Sum(less + [last])
    requires less == StepsTo(levels - {Sum(less + [last])})
    ensures less + [last] == StepsTo(levels)
  {
    SumAppend(less, last);
    var sum := Sum(less + [last]);
    hide Sum, StepsTo;
    assert Top(levels) == sum;
    hide *;
    LastStep(levels);
  }

  lemma LastStep(levels: set<nat>)
    requires levels != {}
    ensures var less := StepsTo(levels - {Top(levels)});
      Sum(less) <= Top(levels) ==> StepsTo(levels) == less + [Top(levels) - Sum(less)]
  {
    hide Top, Sum;
  }

  lemma LastIsTop(steps: seq<nat>)
    requires steps != []
    ensures IsTop(steps, Sum(steps))
  {
    assert steps[..|steps|] == steps;
  }

  lemma PrefixBelow(steps: seq<nat>, j: nat)
    requires Positive(steps) && j < |steps|
    ensures steps[..|steps| - 1][..j] == steps[..j] && Sum(steps[..j]) < Sum(steps)
  {
    assert steps[..|steps|] == steps;
    hide Sum, Positive;
    Rising(steps, j, |steps|);
  }

  lemma TopsBelow(steps: seq<nat>, x: nat)
    requires Positive(steps) && steps != []
    ensures IsTop(steps[..|steps| - 1], x) <==> IsTop(steps, x) && x < Sum(steps)
    ensures IsTop(steps, x) ==> x <= Sum(steps)
  {
    var less := steps[..|steps| - 1];
    hide Sum, Positive;
    if IsTop(less, x) {
      var j :| 1 <= j <= |less| && x == Sum(less[..j]);
      PrefixBelow(steps, j);
      assert x == Sum(steps[..j]);
    }
    if IsTop(steps, x) {
      var j :| 1 <= j <= |steps| && x == Sum(steps[..j]);
      if j < |steps| {
        PrefixBelow(steps, j);
        assert x == Sum(less[..j]);
      } else {
        assert steps[..j] == steps;
      }
    }
  }

  // ---------------------------------------------------------------- nested layers

  /** Whoever pays into a layer pays into all before it. */
  ghost predicate PaysNested(bet: nat, steps: seq<nat>) {
    forall j, k | 0 <= j < k < |steps| && Takes(bet, steps, k) :: Takes(bet, steps, j)
  }

  /** Between two levels, the part of the bet above the lower one is less than every
      step after the upper one. */
  ghost predicate RestTooSmall(bet: nat, steps: seq<nat>) {
    forall j, k | 0 <= j < k < |steps| && Sum(steps[..j]) <= bet < Sum(steps[..j + 1]) ::
      bet - Sum(steps[..j]) < steps[k]
  }

  /** Up to the first layer that takes nothing, and from there on while no step fits. */
  lemma {:induction false} LeftStays(bet: nat, steps: seq<nat>, j: nat, k: nat)
    requires j < k <= |steps| && Sum(steps[..j]) <= bet < Sum(steps[..j + 1])
    requires forall i | j < i < k :: bet - Sum(steps[..j]) < steps[i]
    ensures Left(bet, steps[..k]) == bet - Sum(steps[..j])
    ensures forall i | j <= i < k :: !Takes(bet, steps, i)
  {
    LeftCovers(bet, steps, j);
    SumNext(steps, j);
    if j + 1 < k {
      LeftStays(bet, steps, j, k - 1);
    }
    LeftNext(bet, steps, k - 1);
  }

  lemma FirstUnpaid(bet: nat, steps: seq<nat>) returns (j: nat)
    ensures j <= |steps| && Sum(steps[..j]) <= bet && (j < |steps| ==> bet < Sum(steps[..j + 1]))
  {
    j := 0;
    while j < |steps| && Sum(steps[..j + 1]) <= bet
      invariant j <= |steps| && Sum(steps[..j]) <= bet
    {
      j := j + 1;
    }
  }

  lemma OneGap(bet: nat, steps: seq<nat>, j: nat, i: nat)
    requires j < |steps| && i < |steps|
    requires Sum(steps[..j]) <= bet < Sum(steps[..j + 1]) && Sum(steps[..i]) <= bet < Sum(steps[..i + 1])
    ensures i == j
  {
    if i < j {
      SumMonotone(steps, i + 1, j);
    } else if j < i {
      SumMonotone(steps, j + 1, i);
    }
  }

  /** A bet pays into nested layers exactly when the rest above its level fits into
      no later step. */
  lemma NestedExactlyWhen(bet: nat, steps: seq<nat>)
    ensures PaysNested(bet, steps) <==> RestTooSmall(bet, steps)
  {
    var j := FirstUnpaid(bet, steps);
    LeftCovers(bet, steps, j);
    if j < |steps| {
      SumNext(steps, j);
      assert !Takes(bet, steps, j);
      if RestTooSmall(bet, steps) {
        LeftStays(bet, steps, j, |steps|);
      } else {
        var i, k :|
          0 <= i < k < |steps| && Sum(steps[..i]) <= bet < Sum(steps[..i + 1]) && bet - Sum(steps[..i]) >= steps[k];
        OneGap(bet, steps, j, i);
        LaterTaken(bet, steps, j, k);
      }
    } else {
      PaysAll(bet, steps);
    }
  }

  lemma PaysAll(bet: nat, steps: seq<nat>)
    requires bet >= Sum(steps[..|steps|])
    ensures PaysNested(bet, steps) && RestTooSmall(bet, steps)
  {
    LeftCovers(bet, steps, |steps|);
    forall x | 0 <= x <= |steps| ensures Sum(steps[..x]) <= bet {
      SumMonotone(steps, x, |steps|);
    }
  }

  lemma {:induction false} LaterTaken(bet: nat, steps: seq<nat>, j: nat, k: nat)
    requires j < k < |steps| && Sum(steps[..j]) <= bet < Sum(steps[..j + 1])
    requires bet - Sum(steps[..j]) >= steps[k]
    ensures exists i :: j < i <= k && Takes(bet, steps, i)
    decreases k
  {
    if i :| j < i < k && bet - Sum(steps[..j]) >= steps[i] {
      LaterTaken(bet, steps, j, i);
    } else {
      LeftStays(bet, steps, j, k);
      assert Takes(bet, steps, k);
    }
  }

  /** Bets that are zero, a level, or at least the highest level are never the trouble. */
  lemma SafeBets(bet: nat, steps: seq<nat>)
    requires Positive(steps)
    requires bet == 0 || bet >= Sum(steps) || exists j :: 0 <= j <= |steps| && bet == Sum(steps[..j])
    ensures PaysNested(bet, steps)
  {
    NestedExactlyWhen(bet, steps);
    hide PaysNested, Sum, Positive;
    forall i, k | 0 <= i < k < |steps| && Sum(steps[..i]) <= bet < Sum(steps[..i + 1])
      ensures bet - Sum(steps[..i]) < steps[k] {
      SafeBet(bet, steps, i, k);
    }
  }

  lemma SafeBet(bet: nat, steps: seq<nat>, i: nat, k: nat)
    requires Positive(steps) && i < k < |steps| && Sum(steps[..i]) <= bet < Sum(steps[..i + 1])
    requires bet == 0 || bet >= Sum(steps) || exists j :: 0 <= j <= |steps| && bet == Sum(steps[..j])
    ensures bet - Sum(steps[..i]) < steps[k]
  {
    assert steps[k] > 0;
    hide Sum, Positive;
    if bet >= Sum(steps) {
      assert steps[..|steps|] == steps;
      SumMonotone(steps, i + 1, |steps|);
    } else if bet > 0 {
      var j :| 0 <= j <= |steps| && bet == Sum(steps[..j]);
      NoRest(steps, j, i);
    }
  }

  lemma NoRest(steps: seq<nat>, j: nat, i: nat)
    requires j <= |steps| && i < |steps| && Sum(steps[..i]) <= Sum(steps[..j]) < Sum(steps[..i + 1])
    ensures Sum(steps[..j]) == Sum(steps[..i])
  {
    hide Sum;
    if j < i {
      SumMonotone(steps, j, i);
    } else if i < j {
      SumMonotone(steps, i + 1, j);
    }
  }

  /** A bet of 5 misses a first layer of 10 and pays into a second one of 2. */
  lemma MissesTheFirst()
    ensures !PaysNested(5, [10, 2])
  {
    var steps: seq<nat> := [10, 2];
    assert steps[..0] == [] && steps[..1] == [10];
    assert [10][..0] == [];
    assert Left(5, [10]) == 5;
    assert Takes(5, steps, 1) && !Takes(5, steps, 0);
  }
}
