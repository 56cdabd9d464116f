/** Lists without repetition, and the erasing of one element. */
module StdVector {

  ghost predicate NoTwice<T>(s: seq<T>) {
    forall i, j | 0 <= i < j < |s| :: s[i] != s[j]
  }

  /** `std::find` and `erase`: the first occurrence is taken out. */
  method Erase<T(==)>(s: seq<T>, x: T) returns (rest: seq<T>)
    requires x in s
    ensures multiset(rest) == multiset(s) - multiset{x} && |rest| == |s| - 1
    ensures exists i :: 0 <= i < |s| && s[i] == x && x !in s[..i] && rest == s[..i] + s[i + 1..]
  {
    var i := 0;
    ghost var j :| 0 <= j < |s| && s[j] == x;
    while s[i] != x
      invariant i <= j && forall k | 0 <= k < i :: s[k] != x
      decreases |s| - i
    {
      i := i + 1;
    }
    rest := s[..i] + s[i + 1..];
    Parts(s, i);
  }

  lemma Parts<T>(s: seq<T>, i: nat)
    requires i < |s|
    ensures multiset(s[..i] + s[i + 1..]) == multiset(s) - multiset{s[i]}
  {
    assert s == s[..i] + [s[i]] + s[i + 1..];
  }

  /** Out of a list without repetition the element is gone. */
  lemma ErasedIsGone<T(!new)>(s: seq<T>, x: T, rest: seq<T>)
    requires NoTwice(s) && exists i :: 0 <= i < |s| && s[i] == x && x !in s[..i] && rest == s[..i] + s[i + 1..]
    ensures NoTwice(rest) && forall y :: y in rest <==> y in s && y != x
  {
    var i :| 0 <= i < |s| && s[i] == x && x !in s[..i] && rest == s[..i] + s[i + 1..];
    forall y ensures y in rest <==> y in s && y != x {
      if y in s && y != x {
        var k :| 0 <= k < |s| && s[k] == y;
        assert rest[if k < i then k else k - 1] == y;
      }
    }
  }
}
