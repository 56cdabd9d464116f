/** `Value::operator<` is a strict total order on real-free values, and two
    values are `operator==` exactly when neither is less. */
module JsonOrder {
  import opened JsonValue

  lemma {:induction false} BytesTrichotomy(a: string, b: string)
    ensures a == b ==> !BytesLess(a, b) && !BytesLess(b, a)
    ensures a != b ==> BytesLess(a, b) != BytesLess(b, a)
  {
    if a != [] && b != [] {
      BytesTrichotomy(a[1..], b[1..]);
      assert a == [a[0]] + a[1..] && b == [b[0]] + b[1..];
    }
  }

  lemma {:induction false} BytesTransitive(a: string, b: string, c: string)
    requires BytesLess(a, b) && BytesLess(b, c)
    ensures BytesLess(a, c)
  {
    if a != [] && a[0] == b[0] == c[0] {
      BytesTransitive(a[1..], b[1..], c[1..]);
    }
  }

  lemma KeyTrichotomy(a: Key, b: Key)
    ensures a == b ==> !KeyLess(a, b) && !KeyLess(b, a)
    ensures a != b ==> KeyLess(a, b) != KeyLess(b, a)
  {
    if a.Name? && b.Name? {
      BytesTrichotomy(a.name, b.name);
    }
  }

  lemma KeyTransitive(a: Key, b: Key, c: Key)
    requires KeyLess(a, b) && KeyLess(b, c)
    ensures KeyLess(a, c)
  {
    if a.Name? {
      BytesTransitive(a.name, b.name, c.name);
    }
  }

  /** The cells of a value the order is stated for. */
  ghost predicate CellsRealFree(cells: seq<Cell>) {
    forall c | c in cells :: RealFree(c.value)
  }

  /** Exactly one of less, greater and equal holds; and equal means identical. */
  lemma {:induction false} Trichotomy(a: Value, b: Value)
    requires RealFree(a) && RealFree(b)
    ensures a == b ==> !Less(a, b) && !Less(b, a)
    ensures a != b ==> Less(a, b) != Less(b, a)
    decreases Size(a) + Size(b)
  {
    if TypeRank(a) == TypeRank(b) {
      match a
      case Str(s) => BytesTrichotomy(s, b.s);
      case Arr(items) => if |items| == |b.items| { CellsTrichotomy(items, b.items); }
      case Obj(members) => if |members| == |b.members| { CellsTrichotomy(members, b.members); }
      case _ =>
    }
  }

  lemma {:induction false} CellsTrichotomy(a: seq<Cell>, b: seq<Cell>)
    requires CellsRealFree(a) && CellsRealFree(b)
    ensures a == b ==> !CellsLess(a, b) && !CellsLess(b, a)
    ensures a != b ==> CellsLess(a, b) != CellsLess(b, a)
    decreases CellsSize(a) + CellsSize(b)
  {
    if a != [] && b != [] {
      assert a == [a[0]] + a[1..] && b == [b[0]] + b[1..];
      KeyTrichotomy(a[0].key, b[0].key);
      Trichotomy(a[0].value, b[0].value);
      CellsTrichotomy(a[1..], b[1..]);
    }
  }

  lemma {:induction false} Transitive(a: Value, b: Value, c: Value)
    requires RealFree(a) && RealFree(b) && RealFree(c)
    requires Less(a, b) && Less(b, c)
    ensures Less(a, c)
    decreases Size(a) + Size(b) + Size(c)
  {
    if TypeRank(a) == TypeRank(b) == TypeRank(c) {
      match a
      case Str(s) => BytesTransitive(s, b.s, c.s);
      case Arr(items) =>
        if |items| == |b.items| == |c.items| { CellsTransitive(items, b.items, c.items); }
      case Obj(members) =>
        if |members| == |b.members| == |c.members| { CellsTransitive(members, b.members, c.members); }
      case _ =>
    }
  }

  lemma {:induction false} CellsTransitive(a: seq<Cell>, b: seq<Cell>, c: seq<Cell>)
    requires CellsRealFree(a) && CellsRealFree(b) && CellsRealFree(c)
    requires CellsLess(a, b) && CellsLess(b, c)
    ensures CellsLess(a, c)
    decreases CellsSize(a) + CellsSize(b) + CellsSize(c)
  {
    if a == [] {
      return;
    }
    CellTrichotomy(a[0], b[0]);
    CellTrichotomy(b[0], c[0]);
    CellTrichotomy(a[0], c[0]);
    if CellLess(a[0], b[0]) && CellLess(b[0], c[0]) {
      CellTransitive(a[0], b[0], c[0]);
    } else if a[0] == b[0] == c[0] {
      CellsTransitive(a[1..], b[1..], c[1..]);
    }
  }

  lemma CellTrichotomy(a: Cell, b: Cell)
    requires RealFree(a.value) && RealFree(b.value)
    ensures a == b ==> !CellLess(a, b) && !CellLess(b, a)
    ensures a != b ==> CellLess(a, b) != CellLess(b, a)
  {
    KeyTrichotomy(a.key, b.key);
    Trichotomy(a.value, b.value);
  }

  lemma {:induction false} CellTransitive(a: Cell, b: Cell, c: Cell)
    requires RealFree(a.value) && RealFree(b.value) && RealFree(c.value)
    requires CellLess(a, b) && CellLess(b, c)
    ensures CellLess(a, c)
    decreases CellSize(a) + CellSize(b) + CellSize(c), 0
  {
    KeyTrichotomy(a.key, b.key);
    KeyTrichotomy(b.key, c.key);
    KeyTrichotomy(a.key, c.key);
    if KeyLess(a.key, b.key) && KeyLess(b.key, c.key) {
      KeyTransitive(a.key, b.key, c.key);
    } else if a.key == b.key == c.key {
      Transitive(a.value, b.value, c.value);
    }
  }

  /** `operator==` is identity on real-free values. */
  lemma {:induction false} EqualIsIdentity(a: Value, b: Value)
    requires RealFree(a) && RealFree(b)
    ensures Equal(a, b) <==> a == b
    decreases Size(a)
  {
    if TypeRank(a) == TypeRank(b) {
      match a
      case Arr(items) => if |items| == |b.items| { CellsEqualIsIdentity(items, b.items); }
      case Obj(members) => if |members| == |b.members| { CellsEqualIsIdentity(members, b.members); }
      case _ =>
    }
  }

  lemma {:induction false} CellsEqualIsIdentity(a: seq<Cell>, b: seq<Cell>)
    requires CellsRealFree(a) && CellsRealFree(b) && |a| == |b|
    ensures CellsEqual(a, b) <==> a == b
    decreases CellsSize(a)
  {
    if a != [] {
      assert a == [a[0]] + a[1..] && b == [b[0]] + b[1..];
      EqualIsIdentity(a[0].value, b[0].value);
      CellsEqualIsIdentity(a[1..], b[1..]);
    }
  }

  /** The order is a strict total order whose incomparability is `operator==`. */
  lemma StrictTotalOrder(a: Value, b: Value, c: Value)
    requires RealFree(a) && RealFree(b) && RealFree(c)
    ensures !Less(a, a)
    ensures Less(a, b) && Less(b, c) ==> Less(a, c)
    ensures !(Less(a, b) && Less(b, a))
    ensures !Less(a, b) && !Less(b, a) <==> Equal(a, b)
  {
    Trichotomy(a, a);
    Trichotomy(a, b);
    EqualIsIdentity(a, b);
    if Less(a, b) && Less(b, c) {
      Transitive(a, b, c);
    }
  }

  // ---------------------------------------------------------------- containers of any size

  /** The cells of an array or object. */
  function CellsOf(v: Value): seq<Cell>
    requires v.Arr? || v.Obj?
  {
    if v.Arr? then v.items else v.members
  }

  /** Two containers of one type, of whatever size, with contents the order is stated for. */
  ghost predicate Comparable(a: Value, b: Value) {
    ((a.Arr? && b.Arr?) || (a.Obj? && b.Obj?)) && CellsRealFree(CellsOf(a)) && CellsRealFree(CellsOf(b))
  }

  /** An `int` that differs by a multiple of 2^32 is the number cut down. */
  lemma CutDown(x: int, k: int, y: int)
    requires y == x - k * 0x1_0000_0000 && -0x8000_0000 <= y <= MAX_INT32
    ensures ToInt32(x) == y
  {
    var q, m := x / 0x1_0000_0000, x % 0x1_0000_0000;
    assert y == (q - k) * 0x1_0000_0000 + m;
  }

  lemma Multiples(x: int) returns (k: int)
    ensures ToInt32(x) == x - k * 0x1_0000_0000 && -0x8000_0000 <= ToInt32(x) <= MAX_INT32
  {
    var q, m := x / 0x1_0000_0000, x % 0x1_0000_0000;
    assert x == q * 0x1_0000_0000 + m;
    k := if m > MAX_INT32 then q + 1 else q;
  }

  /** What the 32-bit difference of two sizes is, seen from either side. */
  lemma DeltaBothWays(a: seq<Cell>, b: seq<Cell>)
    ensures -0x8000_0000 <= SizeDelta(a, b) <= MAX_INT32
    ensures SizeDelta(a, b) == -0x8000_0000 <==> (|a| - |b|) % 0x1_0000_0000 == 0x8000_0000
    ensures SizeDelta(b, a) == if SizeDelta(a, b) == -0x8000_0000 then -0x8000_0000 else -SizeDelta(a, b)
  {
    var k := Multiples(|a| - |b|);
    var d := SizeDelta(a, b);
    hide ToInt32;
    if d == -0x8000_0000 {
      CutDown(|b| - |a|, 1 - k, -0x8000_0000);
    } else {
      CutDown(|b| - |a|, -k, -d);
    }
  }

  /** The difference of the two sizes is cut down to an `int`. Two containers of any size
      are each less than the other exactly when their sizes lie 2^31 apart, modulo 2^32;
      otherwise exactly one of less, equal and greater holds. */
  lemma BothLessExactlyWhen(a: Value, b: Value)
    requires Comparable(a, b)
    ensures Less(a, b) && Less(b, a) <==> (|CellsOf(a)| - |CellsOf(b)|) % 0x1_0000_0000 == 0x8000_0000
    ensures a == b ==> !Less(a, b) && !Less(b, a)
    ensures a != b ==> Less(a, b) || Less(b, a)
  {
    DeltaBothWays(CellsOf(a), CellsOf(b));
    CellsTrichotomy(CellsOf(a), CellsOf(b));
  }

  /** An array of nothing but nulls. */
  function Nulls(n: nat): Value {
    Arr(seq(n, i requires 0 <= i < n => Cell(Index(i), Null)))
  }

  /** An array of 2^31 nulls and the empty array are each less than the other. */
  lemma BothLess()
    ensures Less(Nulls(0x8000_0000), Nulls(0)) && Less(Nulls(0), Nulls(0x8000_0000))
  {
    BothLessExactlyWhen(Nulls(0x8000_0000), Nulls(0));
  }

  /** Adding the differences of neighbours gives that of the outer two, modulo 2^32. */
  lemma DeltasAdd(a: seq<Cell>, b: seq<Cell>, c: seq<Cell>)
    ensures SizeDelta(a, c) == ToInt32(SizeDelta(a, b) + SizeDelta(b, c))
  {
    var k := Multiples(|a| - |b|);
    var l := Multiples(|b| - |c|);
    var sum := SizeDelta(a, b) + SizeDelta(b, c);
    var m := Multiples(sum);
    hide ToInt32;
    CutDown(|a| - |c|, k + l + m, ToInt32(sum));
  }

  /** Of three containers in a row, the first is less than the last exactly when the two
      32-bit differences add up without leaving an `int`, or come round to zero and the
      cells say so. */
  lemma TransitiveExactlyWhen(a: Value, b: Value, c: Value)
    requires Comparable(a, b) && Comparable(b, c) && Less(a, b) && Less(b, c)
    ensures Less(a, c) <==>
      var sum := SizeDelta(CellsOf(a), CellsOf(b)) + SizeDelta(CellsOf(b), CellsOf(c));
      sum >= -0x8000_0000 || (sum == -0x1_0000_0000 && CellsLess(CellsOf(a), CellsOf(c)))
  {
    var x, y, z := CellsOf(a), CellsOf(b), CellsOf(c);
    DeltaBothWays(x, y);
    DeltaBothWays(y, z);
    DeltasAdd(x, y, z);
    if SizeDelta(x, y) == 0 && SizeDelta(y, z) == 0 {
      CellsTransitive(x, y, z);
    }
    var sum := SizeDelta(x, y) + SizeDelta(y, z);
    if sum >= -0x8000_0000 {
      CutDown(sum, 0, sum);
    } else {
      CutDown(sum, -1, sum + 0x1_0000_0000);
    }
    hide ToInt32, SizeDelta, CellsLess, CellsRealFree;
  }

  // ---------------------------------------------------------------- what decides

  /** Text is compared at the first byte that differs; a beginning comes before the whole. */
  lemma {:induction false} BytesLessExactlyWhen(a: string, b: string)
    ensures BytesLess(a, b) <==>
      (exists k :: 0 <= k <= |a| && k < |b| && a[..k] == b[..k] && (k == |a| || a[k] < b[k]))
  {
    if a != [] && b != [] && a[0] == b[0] {
      BytesLessExactlyWhen(a[1..], b[1..]);
      if k :| 0 <= k <= |a[1..]| && k < |b[1..]| && a[1..][..k] == b[1..][..k]
              && (k == |a[1..]| || a[1..][k] < b[1..][k]) {
        assert a[..k + 1] == [a[0]] + a[1..][..k] && b[..k + 1] == [b[0]] + b[1..][..k];
      }
      if k :| 0 <= k <= |a| && k < |b| && a[..k] == b[..k] && (k == |a| || a[k] < b[k]) {
        if k > 0 {
          assert a[1..][..k - 1] == a[..k][1..] && b[1..][..k - 1] == b[..k][1..];
        }
      }
    } else {
      assert a[..0] == b[..0];
      if k :| 0 <= k <= |a| && k < |b| && a[..k] == b[..k] && (k == |a| || a[k] < b[k]) {
        SameFront(a, b, k);
      }
    }
  }

  lemma SameFront(a: string, b: string, k: nat)
    requires k <= |a| && k <= |b| && a[..k] == b[..k]
    ensures k > 0 ==> a[0] == b[0]
  {
    assert k > 0 ==> a[0] == a[..k][0] && b[0] == b[..k][0];
  }

  /** Values of different types come in the order of the types; numbers and texts by size, false
      before true, and of two containers of different sizes, none beyond 32 bits, the smaller first. */
  lemma WhatIsLess(a: Value, b: Value)
    ensures a.Null? ==> (Less(a, b) <==> !b.Null?)
    ensures a.Int? ==> (Less(a, b) <==> if b.Int? then a.i < b.i else !b.Null?)
    ensures a.UInt? ==> (Less(a, b) <==> if b.UInt? then a.u < b.u else !b.Null? && !b.Int?)
    ensures a.Str? ==> (Less(a, b) <==> if b.Str? then BytesLess(a.s, b.s) else b.Bool? || b.Arr? || b.Obj?)
    ensures a.Bool? ==> (Less(a, b) <==> if b.Bool? then !a.b && b.b else b.Arr? || b.Obj?)
    ensures a.Arr? && b.Arr? && |a.items| <= MAX_INT32 && |b.items| <= MAX_INT32 && |a.items| != |b.items| ==>
      (Less(a, b) <==> |a.items| < |b.items|)
    ensures a.Obj? && b.Obj? && |a.members| <= MAX_INT32 && |b.members| <= MAX_INT32 && |a.members| != |b.members| ==>
      (Less(a, b) <==> |a.members| < |b.members|)
    ensures a.Arr? && b.Obj? ==> Less(a, b) && !Less(b, a)
  {
    hide BytesLess, CellsLess;
  }

  /** Of two containers of one size the first cell that differs decides, by its key and then by
      its value. */
  lemma {:induction false} FirstCellDecides(a: seq<Cell>, b: seq<Cell>, k: nat)
    requires k < |a| && k < |b| && a[..k] == b[..k] && RealFree(a[k].value) && RealFree(b[k].value)
    requires forall j | 0 <= j < k :: RealFree(a[j].value)
    requires a[k] != b[k] && (a[k].key.Name? <==> b[k].key.Name?)
    ensures CellsLess(a, b) <==>
      if a[k].key != b[k].key then KeyLess(a[k].key, b[k].key) else Less(a[k].value, b[k].value)
    decreases k
  {
    hide Less, KeyLess;
    CellTrichotomy(a[0], b[0]);
    if k > 0 {
      assert a[0] == a[..k][0] == b[..k][0] == b[0];
      assert a[1..][..k - 1] == a[..k][1..] && b[1..][..k - 1] == b[..k][1..];
      FirstCellDecides(a[1..], b[1..], k - 1);
    } else {
      KeyTrichotomy(a[0].key, b[0].key);
    }
  }
}
