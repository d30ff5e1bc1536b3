/**
  The visiting order of the two chunk meshers (Assets/BonesCubed/Common/Jobs/GenerateChunkMesh.cs
  and Common/Jobs/GenerateChunkMesh.cs): three nested loops over 0 .. 15 with x outermost and z
  innermost. Step n of the loops visits `LocalAt(n)`.
*/
module ChunkLoops {
  import opened Coordinates

  /** A local position of the 16 x 16 x 16 chunk. */
  predicate InChunk(p: BlockPos) {
    0 <= p.x < 16 && 0 <= p.y < 16 && 0 <= p.z < 16
  }

  /** The position visited by step n of the x / y / z loops. */
  function LocalAt(n: int): (p: BlockPos)
    requires 0 <= n < ChunkVolume
    ensures InChunk(p)
  {
    BlockPos(n / 256, (n / 16) % 16, n % 16)
  }

  /** The step at which the loops visit a local position. */
  function StepOf(p: BlockPos): (n: int)
    requires InChunk(p)
    ensures 0 <= n < ChunkVolume
  {
    p.x * 256 + p.y * 16 + p.z
  }

  /** Position to step and back. */
  lemma StepOfLocalAt(n: int)
    requires 0 <= n < ChunkVolume
    ensures StepOf(LocalAt(n)) == n
  {
  }

  /** Step to position and back: every local position is visited, at exactly one step. */
  lemma LocalAtStepOf(p: BlockPos)
    requires InChunk(p)
    ensures LocalAt(StepOf(p)) == p
  {
    var n := StepOf(p);
    assert n / 256 == p.x;
    assert n / 16 == p.x * 16 + p.y;
    assert (n / 16) % 16 == p.y;
    assert n % 16 == p.z;
  }

  /** x, then y, then z: the lexicographic order with x most significant. */
  predicate Before(a: BlockPos, b: BlockPos) {
    a.x < b.x || (a.x == b.x && (a.y < b.y || (a.y == b.y && a.z < b.z)))
  }

  /** Later steps visit lexicographically later positions: x is the outermost loop and z the innermost. */
  lemma LoopOrder(n: int, m: int)
    requires 0 <= n < m < ChunkVolume
    ensures Before(LocalAt(n), LocalAt(m))
  {
    var a, b := LocalAt(n), LocalAt(m);
    StepOfLocalAt(n);
    StepOfLocalAt(m);
    if a.x != b.x {
      assert a.x < b.x;
    } else if a.y != b.y {
      assert a.y < b.y;
    }
  }
}
