/** The contract of `std::sort` under a comparator that compares an integer key:
    an ordered permutation, nothing more. */
module StdSort {
  ghost predicate Ascending<T>(s: seq<T>, key: T -> int) {
    forall i, j | 0 <= i < j < |s| :: key(s[i]) <= key(s[j])
  }

  function Insert<T>(s: seq<T>, x: T, key: T -> int): seq<T> {
    if s == [] || key(x) < key(s[0]) then [x] + s else [s[0]] + Insert(s[1..], x, key)
  }

  lemma {:induction false} InsertPermutes<T>(s: seq<T>, x: T, key: T -> int)
    ensures |Insert(s, x, key)| == |s| + 1 && multiset(Insert(s, x, key)) == multiset(s) + multiset{x}
  {
    if s != [] {
      assert s == [s[0]] + s[1..];
      InsertPermutes(s[1..], x, key);
    }
  }

  lemma {:induction false} InsertOrdered<T>(s: seq<T>, x: T, key: T -> int, low: int)
    requires Ascending(s, key) && low <= key(x) && (s != [] ==> low <= key(s[0]))
    ensures Ascending(Insert(s, x, key), key) && low <= key(Insert(s, x, key)[0])
  {
    if s != [] && key(x) >= key(s[0]) {
      InsertOrdered(s[1..], x, key, key(s[0]));
    }
  }

  method Sort<T>(s: seq<T>, key: T -> int) returns (r: seq<T>)
    ensures multiset(r) == multiset(s) && |r| == |s|
    ensures Ascending(r, key)
  {
    r := [];
    for k := 0 to |s|
      invariant |r| == k && multiset(r) == multiset(s[..k])
      invariant Ascending(r, key)
    {
      InsertPermutes(r, s[k], key);
      InsertOrdered(r, s[k], key, if r == [] || key(s[k]) < key(r[0]) then key(s[k]) else key(r[0]));
      assert s[..k + 1] == s[..k] + [s[k]];
      r := Insert(r, s[k], key);
    }
    assert s[..|s|] == s;
  }
}
