/**
  The six axis directions of the older code base (Common/DataTypes/Direction.cs), together
  with the BlockPos operators that take a direction (Common/DataTypes/BlockPos.cs).
  The source type is a sealed class with exactly six instances, so it becomes an enumeration.
*/
module Directions {
  import opened Wrappers
  import opened Coordinates

  datatype Direction = North | East | South | West | Up | Down

  /** The index of each direction, in the order North, East, South, West, Up, Down. */
  function IndexOf(d: Direction): (r: int)
    ensures 0 <= r < 6
  {
    match d
    case North => 0
    case East => 1
    case South => 2
    case West => 3
    case Up => 4
    case Down => 5
  }

  /** The unit vector of a direction; north is toward negative z. */
  function AsBlockPos(d: Direction): BlockPos {
    match d
    case North => BlockPos(0, 0, -1)
    case East => BlockPos(1, 0, 0)
    case South => BlockPos(0, 0, 1)
    case West => BlockPos(-1, 0, 0)
    case Up => BlockPos(0, 1, 0)
    case Down => BlockPos(0, -1, 0)
  }

  /** All six directions in index order. */
  const All: seq<Direction> := [North, East, South, West, Up, Down]

  /** The direction facing the other way. */
  function Opposite(d: Direction): Direction
  {
    match d
    case North => South
    case East => West
    case South => North
    case West => East
    case Up => Down
    case Down => Up
  }

  /** The direction with a given index; any other index is an ArgumentException. */
  function FromIndex(index: int): (r: Result<Direction>)
    ensures r.Ok? <==> 0 <= index < 6
    ensures r.Ok? ==> IndexOf(r.value) == index
    ensures r.Err? ==> r.error == InvalidArgument
  {
    if index == 0 then Ok(North)
    else if index == 1 then Ok(East)
    else if index == 2 then Ok(South)
    else if index == 3 then Ok(West)
    else if index == 4 then Ok(Up)
    else if index == 5 then Ok(Down)
    else Err(InvalidArgument)
  }

  /** `pos.Offset(direction, units)`: `units` steps along the direction. */
  function Offset(p: BlockPos, d: Direction, units: int): BlockPos {
    Add(p, Scale(AsBlockPos(d), units))
  }

  /** `pos + direction`: one step along the direction. */
  function Step(p: BlockPos, d: Direction): BlockPos {
    Add(p, AsBlockPos(d))
  }

  /** Every direction vector has exactly one non-zero component, and it is 1 or -1. */
  predicate IsUnitAxis(v: BlockPos) {
    || (v.x in {-1, 1} && v.y == 0 && v.z == 0)
    || (v.x == 0 && v.y in {-1, 1} && v.z == 0)
    || (v.x == 0 && v.y == 0 && v.z in {-1, 1})
  }

  /** FromIndex and IndexOf are inverse; All lists each direction once, at its own index. */
  lemma IndexRoundTrip(d: Direction, i: int)
    ensures FromIndex(IndexOf(d)) == Ok(d)
    ensures 0 <= i < 6 ==> FromIndex(i).Ok? && All[i] == FromIndex(i).value
    ensures All[IndexOf(d)] == d
    ensures |All| == 6 && forall j, k :: 0 <= j < k < |All| ==> All[j] != All[k]
  {
  }

  /** Opposite is an involution and its vector is the negated vector; every vector is a unit axis. */
  lemma OppositeInvolution(d: Direction)
    ensures Opposite(Opposite(d)) == d
    ensures Opposite(d) != d
    ensures AsBlockPos(Opposite(d)) == Negate(AsBlockPos(d))
    ensures IsUnitAxis(AsBlockPos(d))
  {
    match d
    case North =>
    case East =>
    case South =>
    case West =>
    case Up =>
    case Down =>
  }

  /** Offsetting by n units and then by m units is offsetting by n + m; one unit is one step. */
  lemma OffsetComposes(p: BlockPos, d: Direction, n: int, m: int)
    ensures Offset(Offset(p, d, n), d, m) == Offset(p, d, n + m)
    ensures Offset(p, d, 1) == Step(p, d)
    ensures Offset(p, d, 0) == p
    ensures Offset(p, d, -n) == Offset(p, Opposite(d), n)
  {
    match d
    case North =>
    case East =>
    case South =>
    case West =>
    case Up =>
    case Down =>
  }
}

/**
  The six axis directions of the job-based code base
  (Assets/BonesCubed/Common/DataTypes/Core/Direction.cs). The source type is a struct with
  an index and a vector, so besides the six named values there is the default struct
  (index 0, zero vector), and equality compares indices only.
*/
module CoreDirections {
  import opened Wrappers
  import opened Coordinates
  import Directions

  datatype Direction = Direction(index: int, vector: BlockPos)

  const North := Direction(0, BlockPos(0, 0, -1))
  const East := Direction(1, BlockPos(1, 0, 0))
  const South := Direction(2, BlockPos(0, 0, 1))
  const West := Direction(3, BlockPos(-1, 0, 0))
  const Up := Direction(4, BlockPos(0, 1, 0))
  const Down := Direction(5, BlockPos(0, -1, 0))

  /** `default(Direction)`. */
  const Default := Direction(0, BlockPos(0, 0, 0))

  const Named: seq<Direction> := [North, East, South, West, Up, Down]

  /** `==`, `!=` and `Equals` compare the index only. */
  predicate Same(a: Direction, b: Direction) {
    a.index == b.index
  }

  predicate Differ(a: Direction, b: Direction) {
    a.index != b.index
  }

  /** The opposite of a struct value, chosen by its index; any other index gives the default struct. */
  function Opposite(d: Direction): Direction
  {
    match d.index
    case 0 => South
    case 1 => West
    case 2 => North
    case 3 => East
    case 4 => Down
    case 5 => Up
    case _ => Default
  }

  /** The named direction with a given index; any other index is an ArgumentException. */
  function FromIndex(index: int): (r: Result<Direction>)
    ensures r.Ok? <==> 0 <= index < 6
    ensures r.Ok? ==> r.value == Named[index] && r.value.index == index
    ensures r.Err? ==> r.error == InvalidArgument
  {
    match index
    case 0 => Ok(North)
    case 1 => Ok(East)
    case 2 => Ok(South)
    case 3 => Ok(West)
    case 4 => Ok(Up)
    case 5 => Ok(Down)
    case _ => Err(InvalidArgument)
  }

  /** On the six named values Opposite is an involution that negates the vector. */
  lemma OppositeOfNamed(d: Direction)
    requires d in Named
    ensures Opposite(Opposite(d)) == d
    ensures Opposite(d).vector == BlockPos(-d.vector.x, -d.vector.y, -d.vector.z)
    ensures !Same(Opposite(d), d)
    ensures FromIndex(d.index) == Ok(d)
  {
    if d.index == 0 {
      assert d == North;
    } else if d.index == 1 {
      assert d == East;
    } else if d.index == 2 {
      assert d == South;
    } else if d.index == 3 {
      assert d == West;
    } else if d.index == 4 {
      assert d == Up;
    } else {
      assert d == Down;
    }
  }

  /** The six named values carry the indices 0 .. 5 and six distinct unit axis vectors; north is toward negative z. */
  lemma NamedDirections()
    ensures |Named| == 6 && North.vector == BlockPos(0, 0, -1)
    ensures forall i :: 0 <= i < 6 ==> Named[i].index == i && Directions.IsUnitAxis(Named[i].vector)
    ensures forall i, j :: 0 <= i < j < 6 ==> Named[i].vector != Named[j].vector
  {
  }

  /** `!=` is the negation of `==`, and both look at the index only: values with different vectors can be equal. */
  lemma EqualityByIndex(a: Direction, b: Direction)
    ensures Differ(a, b) <==> !Same(a, b)
    ensures a.index == b.index ==> Same(a, b)
  {
  }

  /** A struct value whose index names no direction has the default struct as its opposite. */
  lemma OppositeOfUnnamed(d: Direction)
    requires !(0 <= d.index < 6)
    ensures Opposite(d) == Default
    ensures FromIndex(d.index).Err?
  {
  }

  /**
    The default struct is indistinguishable from North under `==` although its vector is zero,
    and its opposite is South.
  */
  lemma DefaultActsAsNorth()
    ensures Same(Default, North) && Default != North
    ensures Opposite(Default) == South
    ensures Default.vector == Origin
  {
  }
}
