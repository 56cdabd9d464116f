/** The value tree of the JSON library and the order it puts on such trees.
    A `char` stands for one byte of text: nothing below depends on it being
    less than 256. */
module JsonValue {

  /** `CZString`: the key of a cell, an array index or an object member name. */
  datatype Key = Index(index: nat) | Name(name: string)

  datatype Cell = Cell(key: Key, value: Value)

  /** `Value`. Both containers are a map from keys to values, kept here as the
      sequence of cells in key order. A double is known by its lexeme only. */
  datatype Value =
    | Null
    | Int(i: int)
    | UInt(u: nat)
    | Real(lexeme: string)
    | Str(s: string)
    | Bool(b: bool)
    | Arr(items: seq<Cell>)
    | Obj(members: seq<Cell>)

  const MIN_INT64: int := -0x8000_0000_0000_0000
  const MAX_INT64: int := 0x7FFF_FFFF_FFFF_FFFF
  const MAX_UINT64: int := 0xFFFF_FFFF_FFFF_FFFF
  const MAX_INT32: int := 0x7FFF_FFFF

  /** A `size_t` difference converted to a 32-bit `int`. */
  function ToInt32(x: int): int {
    var m := x % 0x1_0000_0000;
    if m > MAX_INT32 then m - 0x1_0000_0000 else m
  }

  function SizeDelta(a: seq<Cell>, b: seq<Cell>): (d: int)
    ensures |a| <= MAX_INT32 && |b| <= MAX_INT32 ==> d == |a| - |b|
  {
    ToInt32(|a| - |b|)
  }

  predicate BytesLess(a: string, b: string) {
    if b == [] then false
    else if a == [] then true
    else if a[0] != b[0] then a[0] < b[0]
    else BytesLess(a[1..], b[1..])
  }

  /** `CZString::operator<`. A container holds keys of one kind only, so the
      mixed case never arises. */
  predicate KeyLess(a: Key, b: Key) {
    match (a, b)
    case (Index(i), Index(j)) => i < j
    case (Name(n), Name(m)) => BytesLess(n, m)
    case _ => a.Index?
  }

  ghost predicate Sorted(cells: seq<Cell>, indexed: bool) {
    && (forall k | 0 <= k < |cells| :: cells[k].key.Index? == indexed)
    && (forall j, k | 0 <= j < k < |cells| :: KeyLess(cells[j].key, cells[k].key))
  }

  /** What holds of every value the library can build from anything but doubles:
      64-bit integers, cells in strict key order, keys of the container's own
      kind, and sizes whose differences fit an `int`. */
  ghost predicate RealFree(v: Value) {
    match v
    case Null => true
    case Int(i) => MIN_INT64 <= i <= MAX_INT64
    case UInt(u) => u <= MAX_UINT64
    case Real(_) => false
    case Str(_) => true
    case Bool(_) => true
    case Arr(items) => |items| <= MAX_INT32 && Sorted(items, true) && forall c | c in items :: RealFree(c.value)
    case Obj(members) => |members| <= MAX_INT32 && Sorted(members, false) && forall c | c in members ::
      RealFree(c.value)
  }

  /** The order of the `ValueType` enumeration. */
  function TypeRank(v: Value): int {
    match v
    case Null => 0
    case Int(_) => 1
    case UInt(_) => 2
    case Real(_) => 3
    case Str(_) => 4
    case Bool(_) => 5
    case Arr(_) => 6
    case Obj(_) => 7
  }

  /** Number of nodes of a value, the measure of every recursion over values. */
  function Size(v: Value): nat {
    match v
    case Arr(items) => 1 + CellsSize(items)
    case Obj(members) => 1 + CellsSize(members)
    case _ => 1
  }

  function CellsSize(cells: seq<Cell>): nat {
    if cells == [] then 0
    else
      assert cells[0].value < cells[0];
      1 + Size(cells[0].value) + CellsSize(cells[1..])
  }

  function CellSize(c: Cell): nat {
    1 + Size(c.value)
  }

  /** `Value::operator<`; two doubles are not compared by this model. */
  predicate Less(a: Value, b: Value)
    decreases Size(a) + Size(b)
  {
    if TypeRank(a) != TypeRank(b) then TypeRank(a) < TypeRank(b)
    else
      match a
      case Null => false
      case Int(i) => i < b.i
      case UInt(u) => u < b.u
      case Real(_) => false
      case Str(s) => BytesLess(s, b.s)
      case Bool(x) => !x && b.b
      case Arr(items) =>
        if SizeDelta(items, b.items) != 0 then SizeDelta(items, b.items) < 0 else CellsLess(items, b.items)
      case Obj(members) =>
        if SizeDelta(members, b.members) != 0 then SizeDelta(members, b.members) < 0 else CellsLess(members, b.members)
  }

  /** `std::map::operator<`: lexicographic over the cells, each one a pair. */
  predicate CellsLess(a: seq<Cell>, b: seq<Cell>)
    decreases CellsSize(a) + CellsSize(b)
  {
    if b == [] then false
    else if a == [] then true
    else if CellLess(a[0], b[0]) then true
    else if CellLess(b[0], a[0]) then false
    else CellsLess(a[1..], b[1..])
  }

  /** `std::pair::operator<`. */
  predicate CellLess(a: Cell, b: Cell)
    decreases CellSize(a) + CellSize(b), 0
  {
    KeyLess(a.key, b.key) || (!KeyLess(b.key, a.key) && Less(a.value, b.value))
  }

  /** `Value::operator==`; two doubles are not compared by this model. */
  predicate Equal(a: Value, b: Value)
    decreases Size(a)
  {
    TypeRank(a) == TypeRank(b) &&
    match a
    case Null => true
    case Int(i) => i == b.i
    case UInt(u) => u == b.u
    case Real(_) => true
    case Str(s) => |s| == |b.s| && s == b.s
    case Bool(x) => x == b.b
    case Arr(items) => |items| == |b.items| && CellsEqual(items, b.items)
    case Obj(members) => |members| == |b.members| && CellsEqual(members, b.members)
  }

  predicate CellsEqual(a: seq<Cell>, b: seq<Cell>)
    requires |a| == |b|
    decreases CellsSize(a)
  {
    if a == [] then true
    else a[0].key == b[0].key && Equal(a[0].value, b[0].value) && CellsEqual(a[1..], b[1..])
  }
}
