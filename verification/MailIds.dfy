/** Mail ids: every server of a group counts on in steps of the group's size from a
    start of its own. */
module MailIds {
  import opened Wrappers

  const UINT32_END := 0x1_0000_0000

  /** The start after the largest stored id was read: without 32-bit wrap the next
      multiple of `count` after it, plus the server's index. */
  function Start(idx: nat, count: nat, stored: Option<nat>): nat
    requires count > 0
  {
    if stored.None? then idx + count
    else
      var x := (stored.value + count) % UINT32_END;
      (x - x % count + idx) % UINT32_END
  }

  /** The start is found without 32-bit wrap. */
  predicate InRange(idx: nat, count: nat, stored: Option<nat>) {
    stored.Some? ==> stored.value + count + idx < UINT32_END
  }

  /** Which block of `count` ids holds the stored maximum; an empty table is in the first. */
  function BlockOf(count: nat, stored: Option<nat>): nat
    requires count > 0
  {
    if stored.None? then 0 else stored.value / count
  }

  /** The server's own id in the block after the one of the stored maximum. */
  ghost predicate OwnInNextBlock(id: nat, idx: nat, count: nat, stored: Option<nat>) {
    count > 0 && id % count == idx && id / count == BlockOf(count, stored) + 1 && (stored.Some? ==> stored.value < id)
  }

  /** The `k`th id generated from a start. */
  function MailId(start: nat, count: nat, k: nat): nat {
    (start + count * k) % UINT32_END
  }

  class MailModule {
    const idx: nat
    const count: nat
    var maxMailID: nat

    constructor (idx: nat, count: nat)
      requires idx < count < 0x1_0000
      ensures this.idx == idx && this.count == count && maxMailID == 0
    {
      this.idx, this.count, maxMailID := idx, count, 0;
    }

    /** The answer to the question for the largest stored id; a timeout leaves zero. The
        start is the server's own among the `count` ids of the block after the one that
        holds the stored maximum, so above it, unless 32 bits are too few. */
    method OnStoredMax(isTimeOut: bool, stored: Option<nat>)
      requires idx < count < 0x1_0000 && (stored.Some? ==> stored.value < UINT32_END)
      modifies this
      ensures isTimeOut ==> maxMailID == old(maxMailID)
      ensures !isTimeOut ==> maxMailID == Start(idx, count, stored)
      ensures !isTimeOut && InRange(idx, count, stored) ==> OwnInNextBlock(maxMailID, idx, count, stored)
    {
      hide OwnInNextBlock;
      if isTimeOut {
        return;
      }
      StartIfInRange(idx, count, stored);
      if stored.None? {
        maxMailID := idx + count;
        return;
      }
      hide BlockOf, InRange;
      maxMailID := (stored.value + count) % UINT32_END;
      maxMailID := maxMailID - maxMailID % count;
      maxMailID := (maxMailID + idx) % UINT32_END;
    }

    /** The ids of `n` mails after one another. */
    method Generate(n: nat) returns (ids: seq<nat>)
      requires maxMailID < UINT32_END
      modifies this
      ensures |ids| == n && forall k | 0 <= k < n :: ids[k] == MailId(old(maxMailID), count, k + 1)
      ensures maxMailID == MailId(old(maxMailID), count, n)
    {
      ids := [];
      for k := 0 to n
        invariant |ids| == k && maxMailID == MailId(old(maxMailID), count, k)
        invariant forall q | 0 <= q < k :: ids[q] == MailId(old(maxMailID), count, q + 1)
      {
        NextId(old(maxMailID), count, k);
        maxMailID := (maxMailID + count) % UINT32_END;
        ids := ids + [maxMailID];
      }
    }
  }

  lemma NextId(start: nat, count: nat, k: nat)
    ensures (MailId(start, count, k) + count) % UINT32_END == MailId(start, count, k + 1)
  {
    assert count * (k + 1) == count * k + count;
  }

  lemma StartIsNextBlock(idx: nat, count: nat, stored: Option<nat>)
    requires idx < count && InRange(idx, count, stored)
    ensures OwnInNextBlock(Start(idx, count, stored), idx, count, stored)
  {
    if stored.None? {
      OnlyRemainder(idx + count, 1, count, idx);
    } else {
      var q, r := Parts(stored.value, count);
      StartOfBlock(idx, count, stored.value, q, r);
      hide Start;
      NextBlock(q, r, count, idx);
    }
  }

  lemma Parts(x: nat, count: nat) returns (q: nat, r: nat)
    requires count > 0
    ensures x == q * count + r && r < count && q == x / count && r == x % count
  {
    q, r := x / count, x % count;
  }

  lemma NextBlock(q: nat, r: nat, count: nat, idx: nat)
    requires idx < count && r < count
    ensures var id := q * count + count + idx; id % count == idx && id / count == q + 1 && q * count + r < id
  {
    assert q * count + count + idx == (q + 1) * count + idx;
    OnlyRemainder(q * count + count + idx, q + 1, count, idx);
  }

  lemma StartIfInRange(idx: nat, count: nat, stored: Option<nat>)
    requires idx < count
    ensures InRange(idx, count, stored) ==> OwnInNextBlock(Start(idx, count, stored), idx, count, stored)
  {
    if InRange(idx, count, stored) {
      StartIsNextBlock(idx, count, stored);
    }
  }

  lemma StartOfBlock(idx: nat, count: nat, stored: nat, q: nat, r: nat)
    requires idx < count && stored + count + idx < UINT32_END && stored == q * count + r && r < count
    ensures Start(idx, count, Some(stored)) == q * count + count + idx
  {
    var x := stored + count;
    assert x == (q + 1) * count + r;
    OnlyRemainder(x, q + 1, count, r);
    assert x % UINT32_END == x;
  }

  lemma AtLeast(d: int, count: nat)
    requires d >= 1
    ensures d * count >= count
  {
  }

  /** The remainder is the only number below `count` that differs by a multiple of it. */
  lemma OnlyRemainder(x: nat, q: int, count: nat, r: nat)
    requires r < count && x == q * count + r
    ensures x % count == r && x / count == q
  {
    var d := x / count;
    assert x == d * count + x % count;
    assert (d - q) * count == r - x % count;
    if d - q >= 1 {
      AtLeast(d - q, count);
    } else if d - q <= -1 {
      assert (q - d) * count == x % count - r;
      AtLeast(q - d, count);
    } else {
      assert (d - q) * count == 0;
    }
  }

  // ---------------------------------------------------------------- streams

  /** Ids that do not wrap keep the remainder of their start. */
  lemma IdRemainder(idx: nat, count: nat, start: nat, k: nat)
    requires idx < count && start % count == idx && start + count * k < UINT32_END
    ensures MailId(start, count, k) == start + count * k && MailId(start, count, k) % count == idx
  {
    var q := start / count;
    assert start == q * count + idx;
    assert start + count * k == (q + k) * count + idx;
    OnlyRemainder(start + count * k, q + k, count, idx);
  }

  /** Servers with different indexes, each once started, whatever maximum each has read:
      as long as no id wraps, no id is generated by both. */
  lemma StreamsAreDisjoint(i: nat, j: nat, count: nat, stored: Option<nat>, stored': Option<nat>, k: nat, l: nat)
    requires i < count && j < count && i != j
    requires InRange(i, count, stored) && InRange(j, count, stored')
    requires Start(i, count, stored) + count * k < UINT32_END && Start(j, count, stored') + count * l < UINT32_END
    ensures MailId(Start(i, count, stored), count, k) != MailId(Start(j, count, stored'), count, l)
  {
    StartIsNextBlock(i, count, stored);
    StartIsNextBlock(j, count, stored');
    IdRemainder(i, count, Start(i, count, stored), k);
    IdRemainder(j, count, Start(j, count, stored'), l);
  }

  /** One server's ids grow, and lie above the stored maximum. */
  lemma IdsGrow(idx: nat, count: nat, stored: Option<nat>, k: nat, l: nat)
    requires idx < count && k < l && InRange(idx, count, stored)
    requires Start(idx, count, stored) + count * l < UINT32_END
    ensures MailId(Start(idx, count, stored), count, k) < MailId(Start(idx, count, stored), count, l)
    ensures stored.Some? ==> stored.value < MailId(Start(idx, count, stored), count, k)
  {
    StartIsNextBlock(idx, count, stored);
    MoreSteps(count, k, l);
    var start := Start(idx, count, stored);
    hide Start, MailId;
    NoWrap(start, count * k, count, k);
    NoWrap(start, count * l, count, l);
  }

  lemma NoWrap(start: nat, more: nat, count: nat, k: nat)
    requires more == count * k && start + more < UINT32_END
    ensures MailId(start, count, k) == start + more
  {
  }

  lemma MoreSteps(count: nat, k: nat, l: nat)
    requires k < l
    ensures count * k + count <= count * l
  {
    assert count * l == count * k + (l - k) * count;
    AtLeast(l - k, count);
  }

  // ---------------------------------------------------------------- wrapping

  lemma WrapKeepsRemainder(x: nat, count: nat)
    requires count > 0 && UINT32_END % count == 0
    ensures x % UINT32_END % count == x % count
  {
    var d, e, r := x / UINT32_END, UINT32_END / count, x % UINT32_END;
    assert x == d * UINT32_END + r && UINT32_END == e * count;
    assert d * UINT32_END == d * (e * count) == (d * e) * count;
    assert r == r / count * count + r % count;
    assert x == (d * e + r / count) * count + r % count;
    OnlyRemainder(x, d * e + r / count, count, r % count);
  }

  /** Every start is, modulo 2^32, the server's index and a multiple of `count`. */
  lemma StartIsMultiple(idx: nat, count: nat, stored: Option<nat>) returns (m: nat)
    requires idx < count < 0x1_0000
    ensures Start(idx, count, stored) == (m * count + idx) % UINT32_END
  {
    if stored.None? {
      m := 1;
    } else {
      var x, r := (stored.value + count) % UINT32_END, 0;
      m, r := Parts(x, count);
    }
  }

  lemma IdIsMultiple(start: nat, idx: nat, count: nat, m: nat, k: nat)
    requires start == (m * count + idx) % UINT32_END
    ensures MailId(start, count, k) == ((m + k) * count + idx) % UINT32_END
  {
    assert (m + k) * count == m * count + count * k;
    SameWrapped(m * count + idx, count * k);
  }

  lemma SameWrapped(x: nat, more: nat)
    ensures (x % UINT32_END + more) % UINT32_END == (x + more) % UINT32_END
  {
  }

  lemma WrappedIdRemainder(idx: nat, count: nat, stored: Option<nat>, k: nat)
    requires idx < count < 0x1_0000 && UINT32_END % count == 0
    ensures MailId(Start(idx, count, stored), count, k) % count == idx
  {
    hide Start, MailId;
    var m := StartIsMultiple(idx, count, stored);
    IdIsMultiple(Start(idx, count, stored), idx, count, m, k);
    MultipleRemainder(m + k, count, idx);
  }

  lemma MultipleRemainder(n: nat, count: nat, idx: nat)
    requires idx < count && UINT32_END % count == 0
    ensures (n * count + idx) % UINT32_END % count == idx
  {
    OnlyRemainder(n * count + idx, n, count, idx);
    WrapKeepsRemainder(n * count + idx, count);
  }

  /** Once the first server's ids have wrapped often enough, they run into another's start,
      wherever the two have started, unless the step divides the range of ids. */
  lemma StreamsMeet(count: nat, maxima: nat -> Option<nat>) returns (j: nat, k: nat)
    requires 2 <= count < 0x1_0000 && UINT32_END % count != 0
    ensures 0 < j < count
    ensures MailId(Start(0, count, maxima(0)), count, k) == MailId(Start(j, count, maxima(j)), count, 0)
  {
    var q, r := UINT32_END / count, UINT32_END % count;
    j := count - r;
    assert UINT32_END == q * count + r;
    var m := StartIsMultiple(0, count, maxima(0));
    var n := StartIsMultiple(j, count, maxima(j));
    k := Meeting(count, q, r, m, n);
    IdIsMultiple(Start(0, count, maxima(0)), 0, count, m, k);
    IdIsMultiple(Start(j, count, maxima(j)), j, count, n, 0);
  }

  lemma Meeting(count: nat, q: nat, r: nat, m: nat, n: nat) returns (k: nat)
    requires UINT32_END == q * count + r && r <= count
    ensures ((m + k) * count + 0) % UINT32_END == ((n + 0) * count + (count - r)) % UINT32_END
  {
    k := (q + 1) + n + (UINT32_END - 1) * m;
    var turns := 1 + m * count;
    assert m + k == (q + 1 + n) + UINT32_END * m;
    assert (m + k) * count == (q + 1 + n) * count + (UINT32_END * m) * count;
    assert (q + 1 + n) * count == q * count + count + n * count;
    assert (UINT32_END * m) * count == UINT32_END * (m * count);
    assert (m + k) * count == n * count + (count - r) + UINT32_END * turns;
    Turns(n * count + (count - r), turns);
  }

  lemma Turns(x: nat, turns: nat)
    ensures (x + UINT32_END * turns) % UINT32_END == x % UINT32_END
  {
  }

  /** With wrapping, and whatever maximum each server has read, no id is ever generated by
      two servers exactly when the number of servers divides the range of ids. */
  lemma DisjointForEverExactlyWhen(count: nat, maxima: nat -> Option<nat>)
    requires 2 <= count < 0x1_0000
    ensures UINT32_END % count == 0 <==> forall i: nat, j: nat, k: nat, l: nat | i < count && j < count && i != j ::
      MailId(Start(i, count, maxima(i)), count, k) != MailId(Start(j, count, maxima(j)), count, l)
  {
    if UINT32_END % count == 0 {
      forall i: nat, j: nat, k: nat, l: nat | i < count && j < count && i != j
        ensures MailId(Start(i, count, maxima(i)), count, k) != MailId(Start(j, count, maxima(j)), count, l) {
        hide MailId, Start;
        WrappedIdRemainder(i, count, maxima(i), k);
        WrappedIdRemainder(j, count, maxima(j), l);
      }
    } else {
      hide MailId, Start;
      var j, k := StreamsMeet(count, maxima);
    }
  }

  /** An id grows exactly when adding the step does not wrap. */
  lemma GrowsUnlessItWraps(last: nat, count: nat)
    requires 0 < count < UINT32_END && last < UINT32_END
    ensures (last + count) % UINT32_END > last <==> last + count < UINT32_END
  {
  }

  /** After a wrap streams can meet: of three servers, the first one's ids run into the
      third one's. */
  lemma StreamsMeetAfterWrap()
    ensures MailId(Start(0, 3, Some(0)), 3, 1431655767) == MailId(Start(2, 3, Some(0)), 3, 1) == 8
  {
    assert Start(0, 3, Some(0)) == 3 && Start(2, 3, Some(0)) == 5;
    assert 3 + 3 * 1431655767 == UINT32_END + 8;
  }

}
