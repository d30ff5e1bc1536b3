/**
  Integer block coordinates (Common/DataTypes/BlockPos.cs). Unity's `int3`, used by the
  newer containers, has the same component-wise arithmetic and is modelled by the same
  triple.
*/
module Coordinates {
  import opened Wrappers

  datatype BlockPos = BlockPos(x: int, y: int, z: int)

  const Origin := BlockPos(0, 0, 0)

  /** The number of positions along one edge of a chunk. */
  const ChunkEdge := 16

  /** The number of positions in a chunk. */
  const ChunkVolume := 4096

  function Pow2(n: nat): (r: nat)
    ensures r >= 1
  {
    if n == 0 then 1 else 2 * Pow2(n - 1)
  }

  /** C# `v >> n` on a two's complement int: an arithmetic shift, i.e. division rounding down. */
  function ShiftRight(v: int, n: nat): int {
    v / Pow2(n)
  }

  /** C# `v << n`, without 32-bit wrap-around. */
  function ShiftLeft(v: int, n: nat): int {
    v * Pow2(n)
  }

  /** C# `v & 15`: the low four bits, i.e. the Euclidean remainder modulo 16. */
  function Low4(v: int): int {
    v % 16
  }

  /** C# `v & ~15`: all bits but the low four, i.e. `v` rounded down to a multiple of 16. */
  function ClearLow4(v: int): int {
    v - v % 16
  }

  // ----- operators of BlockPos -----

  /** `pos & 15` on every axis. */
  function MaskLow4(p: BlockPos): BlockPos {
    BlockPos(Low4(p.x), Low4(p.y), Low4(p.z))
  }

  /** `pos & ~15` on every axis. */
  function MaskChunk(p: BlockPos): BlockPos {
    BlockPos(ClearLow4(p.x), ClearLow4(p.y), ClearLow4(p.z))
  }

  /** `pos >> n` on every axis. */
  function Shr(p: BlockPos, n: nat): BlockPos {
    BlockPos(ShiftRight(p.x, n), ShiftRight(p.y, n), ShiftRight(p.z, n))
  }

  /** `pos << n` on every axis. */
  function Shl(p: BlockPos, n: nat): BlockPos {
    BlockPos(ShiftLeft(p.x, n), ShiftLeft(p.y, n), ShiftLeft(p.z, n))
  }

  /** `a + b` */
  function Add(a: BlockPos, b: BlockPos): BlockPos {
    BlockPos(a.x + b.x, a.y + b.y, a.z + b.z)
  }

  /** `a - b` (int3 subtraction, used by Region) */
  function Sub(a: BlockPos, b: BlockPos): BlockPos {
    BlockPos(a.x - b.x, a.y - b.y, a.z - b.z)
  }

  /** `pos * k` */
  function Scale(p: BlockPos, k: int): BlockPos {
    BlockPos(p.x * k, p.y * k, p.z * k)
  }

  /** `pos + v`: the same shift on every axis. */
  function AddScalar(p: BlockPos, v: int): BlockPos {
    BlockPos(p.x + v, p.y + v, p.z + v)
  }

  /** `-v` */
  function Negate(p: BlockPos): BlockPos {
    BlockPos(-p.x, -p.y, -p.z)
  }

  function MinInt(a: int, b: int): int { if a <= b then a else b }
  function MaxInt(a: int, b: int): int { if a >= b then a else b }

  /** The local chunk index of a position: its coordinates modulo 16, z-major. */
  function Index(p: BlockPos): (r: int)
    ensures 0 <= r < ChunkVolume
  {
    Low4(p.z) * 16 * 16 + Low4(p.y) * 16 + Low4(p.x)
  }

  // ----- comparisons: each holds only when it holds on every axis -----

  predicate Eq(a: BlockPos, b: BlockPos) { a.x == b.x && a.y == b.y && a.z == b.z }
  predicate Ne(a: BlockPos, b: BlockPos) { a.x != b.x || a.y != b.y || a.z != b.z }
  predicate Lt(a: BlockPos, b: BlockPos) { a.x < b.x && a.y < b.y && a.z < b.z }
  predicate Gt(a: BlockPos, b: BlockPos) { a.x > b.x && a.y > b.y && a.z > b.z }
  predicate Le(a: BlockPos, b: BlockPos) { a.x <= b.x && a.y <= b.y && a.z <= b.z }
  predicate Ge(a: BlockPos, b: BlockPos) { a.x >= b.x && a.y >= b.y && a.z >= b.z }

  /**
    `Equals(object)`: `other` is `None` when the object is not a BlockPos at all.
  */
  predicate EqualsObject(a: BlockPos, other: Option<BlockPos>) {
    other.Some? && a.x == other.value.x && a.y == other.value.y && a.z == other.value.z
  }

  /** The axis-wise minimum is the greatest lower bound under the all-axis `<=`. */
  function Min(a: BlockPos, b: BlockPos): (r: BlockPos)
    ensures Le(r, a) && Le(r, b)
    ensures forall c :: Le(c, a) && Le(c, b) ==> Le(c, r)
  {
    BlockPos(MinInt(a.x, b.x), MinInt(a.y, b.y), MinInt(a.z, b.z))
  }

  /** The axis-wise maximum is the least upper bound under the all-axis `<=`. */
  function Max(a: BlockPos, b: BlockPos): (r: BlockPos)
    ensures Le(a, r) && Le(b, r)
    ensures forall c :: Le(a, c) && Le(b, c) ==> Le(r, c)
  {
    BlockPos(MaxInt(a.x, b.x), MaxInt(a.y, b.y), MaxInt(a.z, b.z))
  }

  // ----- lemmas -----

  /** Euclidean division by 16 is unique: a quotient and a remainder in 0 .. 15 are the ones `/` and `%` give. */
  lemma DivMod16(n: int, q: int, r: int)
    requires 0 <= r < 16 && n == 16 * q + r
    ensures n / 16 == q && n % 16 == r
  {
  }

  /** Adding a multiple of 16 does not change the remainder modulo 16. */
  lemma ModShift(v: int, k: int)
    ensures Low4(v + 16 * k) == Low4(v)
  {
    DivMod16(v, v / 16, v % 16);
    DivMod16(v + 16 * k, v / 16 + k, v % 16);
  }

  /** The local index only sees the coordinates modulo 16. */
  lemma IndexPeriodic(p: BlockPos, kx: int, ky: int, kz: int)
    ensures Index(BlockPos(p.x + 16 * kx, p.y + 16 * ky, p.z + 16 * kz)) == Index(p)
  {
    ModShift(p.x, kx);
    ModShift(p.y, ky);
    ModShift(p.z, kz);
  }

  /** Two positions of the same chunk with different local offsets get different indices. */
  lemma IndexInjectiveOnLocal(p: BlockPos, q: BlockPos)
    requires Index(p) == Index(q)
    ensures MaskLow4(p) == MaskLow4(q)
  {
    var n := Index(p);
    DivMod16(n, Low4(p.z) * 16 + Low4(p.y), Low4(p.x));
    DivMod16(n, Low4(q.z) * 16 + Low4(q.y), Low4(q.x));
    DivMod16(n / 16, Low4(p.z), Low4(p.y));
    DivMod16(n / 16, Low4(q.z), Low4(q.y));
  }

  /** The chunk key and the local offset decompose every coordinate: `((v >> 4) << 4) + (v & 15) == v`. */
  lemma ShiftMaskDecomposition(p: BlockPos)
    ensures Add(Shl(Shr(p, 4), 4), MaskLow4(p)) == p
    ensures Shl(Shr(p, 4), 4) == MaskChunk(p)
    ensures 0 <= Low4(p.x) < 16 && 0 <= Low4(p.y) < 16 && 0 <= Low4(p.z) < 16
  {
    assert Pow2(4) == 16;
  }

  /** A position lies in the 16-cube that starts at its chunk origin. */
  lemma ChunkOriginBounds(p: BlockPos)
    ensures Le(Shl(Shr(p, 4), 4), p)
    ensures Lt(p, AddScalar(Shl(Shr(p, 4), 4), 16))
  {
    ShiftMaskDecomposition(p);
  }

  /** Min and Max bound both arguments under the all-axis `<=`. */
  lemma MinMaxBounds(a: BlockPos, b: BlockPos)
    ensures Le(Min(a, b), a) && Le(Min(a, b), b)
    ensures Le(a, Max(a, b)) && Le(b, Max(a, b))
    ensures Le(Min(a, b), Max(a, b))
  {
  }

  /** The comparisons are all-axis, so they are not total: neither `a < b` nor `a >= b` may hold. */
  lemma ComparisonsArePartial()
    ensures var a, b := BlockPos(0, 1, 0), BlockPos(1, 0, 0);
      !Lt(a, b) && !Ge(a, b) && !Gt(a, b) && !Le(a, b) && Ne(a, b)
  {
  }

  /** `<` and `>` are converses, as are `<=` and `>=`; the strict forms imply the weak ones. */
  lemma ComparisonDuality(a: BlockPos, b: BlockPos)
    ensures Lt(a, b) <==> Gt(b, a)
    ensures Le(a, b) <==> Ge(b, a)
    ensures Lt(a, b) ==> Le(a, b) && Ne(a, b)
    ensures Le(a, b) && Le(b, a) <==> Eq(a, b)
  {
  }

  /** `==` is value equality, `!=` its negation, and `Equals` agrees with `==`. */
  lemma EqualityAgreement(a: BlockPos, b: BlockPos, other: Option<BlockPos>)
    ensures Eq(a, b) <==> a == b
    ensures Ne(a, b) <==> !Eq(a, b)
    ensures EqualsObject(a, Some(b)) <==> Eq(a, b)
    ensures other.None? ==> !EqualsObject(a, other)
  {
  }
}
