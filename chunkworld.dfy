/**
  The chunk map of the newer world (Assets/BonesCubed/Common/Storage/World.cs): chunks are
  stored under the origin of the 16-cube they cover, created on demand, and handed to the
  `CreateFields` hook once each; a separate void chunk holds the fields of chunks that are not
  loaded.

  The newer chunk class is not part of this model. A chunk here keeps its owner and position
  and counts what the world does to it: how many times the `CreateFields` hook was applied to
  it (the hook itself is left to subclasses) and how many times it was disposed.
*/
module ChunkWorlds {
  import opened Coordinates

  class Chunk {
    const world: World
    const position: BlockPos
    var fieldCreations: nat
    var disposals: nat

    constructor (world: World, position: BlockPos)
      ensures this.world == world && this.position == position
      ensures fieldCreations == 0 && disposals == 0
    {
      this.world := world;
      this.position := position;
      fieldCreations := 0;
      disposals := 0;
    }

    method Dispose()
      modifies this
      ensures disposals == old(disposals) + 1 && fieldCreations == old(fieldCreations)
    {
      disposals := disposals + 1;
    }
  }

  class World {
    var chunks: map<BlockPos, Chunk>
    /** Set by the constructor once the world exists, since the void chunk refers back to it. */
    var voidChunk: Chunk?

    /**
      Each chunk is stored under its own position, which is a chunk origin, and belongs to this
      world; the void chunk is none of them.
    */
    ghost predicate Valid()
      reads this
    {
      voidChunk != null && voidChunk.world == this &&
      forall k :: k in chunks ==>
        MaskChunk(k) == k && chunks[k].position == k && chunks[k].world == this && chunks[k] != voidChunk
    }

    /** The void chunk sits at the default position and has had its fields created once. */
    constructor ()
      ensures Valid() && chunks == map[] && fresh(voidChunk)
      ensures voidChunk.position == Origin && voidChunk.fieldCreations == 1 && voidChunk.disposals == 0
    {
      chunks := map[];
      voidChunk := null;
      new;
      var chunk := new Chunk(this, Origin);
      voidChunk := chunk;
      CreateFieldsVoid(chunk);
    }

    /** The `CreateFields` hook, applied to one chunk. */
    method CreateFields(chunk: Chunk)
      modifies chunk
      ensures chunk.fieldCreations == old(chunk.fieldCreations) + 1 && chunk.disposals == old(chunk.disposals)
    {
      chunk.fieldCreations := chunk.fieldCreations + 1;
    }

    /** `CreateFieldsVoid` as the base class has it: the standard hook. */
    method CreateFieldsVoid(chunk: Chunk)
      modifies chunk
      ensures chunk.fieldCreations == old(chunk.fieldCreations) + 1 && chunk.disposals == old(chunk.disposals)
    {
      CreateFields(chunk);
    }

    /**
      `GetChunk`: the chunk stored under `pos & ~15`, or null when there is none and `create`
      is not set; otherwise a new chunk is stored there, gets its fields created once and is
      returned. No stored chunk is touched.
    */
    method GetChunk(pos: BlockPos, create: bool) returns (r: Chunk?)
      requires Valid()
      modifies this
      ensures Valid() && voidChunk == old(voidChunk)
      ensures MaskChunk(pos) in old(chunks) ==> r == old(chunks)[MaskChunk(pos)] && chunks == old(chunks)
      ensures MaskChunk(pos) !in old(chunks) && !create ==> r == null && chunks == old(chunks)
      ensures MaskChunk(pos) !in old(chunks) && create ==>
        r != null && fresh(r) && chunks == old(chunks)[MaskChunk(pos) := r] &&
        r.fieldCreations == 1 && r.disposals == 0
      ensures r != null ==> r.position == MaskChunk(pos) && r != voidChunk
    {
      var key := MaskChunk(pos);
      ShiftMaskDecomposition(pos);
      if key in chunks {
        return chunks[key];
      }
      if !create {
        return null;
      }
      var chunk := new Chunk(this, key);
      chunks := chunks[key := chunk];
      CreateFields(chunk);
      r := chunk;
    }

    /**
      `Dispose`: every stored chunk is disposed once, the map is emptied, and the void chunk is
      disposed.
    */
    method Dispose()
      requires Valid()
      modifies this, voidChunk, set k | k in chunks :: chunks[k]
      ensures chunks == map[] && voidChunk == old(voidChunk) && voidChunk != null
      ensures voidChunk.disposals == old(voidChunk.disposals) + 1 && voidChunk.fieldCreations == old(voidChunk.fieldCreations)
      ensures forall k :: k in old(chunks) ==> old(chunks)[k].disposals == old(chunks[k].disposals) + 1
      ensures forall k :: k in old(chunks) ==> old(chunks)[k].fieldCreations == old(chunks[k].fieldCreations)
    {
      var stored := chunks;
      DisposeAll(stored);
      chunks := map[];
      voidChunk.Dispose();
    }
  }

  /** The `foreach` over the stored chunks: each is disposed once, in whatever order the map yields them. */
  method DisposeAll(stored: map<BlockPos, Chunk>)
    requires forall j, k :: j in stored && k in stored && j != k ==> stored[j] != stored[k]
    modifies set k | k in stored :: stored[k]
    ensures forall k :: k in stored ==> stored[k].disposals == old(stored[k].disposals) + 1
    ensures forall k :: k in stored ==> stored[k].fieldCreations == old(stored[k].fieldCreations)
  {
    var pending := stored.Keys;
    while pending != {}
      invariant pending <= stored.Keys
      invariant forall k :: k in stored && k !in pending ==> stored[k].disposals == old(stored[k].disposals) + 1
      invariant forall k :: k in pending ==> stored[k].disposals == old(stored[k].disposals)
      invariant forall k :: k in stored ==> stored[k].fieldCreations == old(stored[k].fieldCreations)
      decreases pending
    {
      var k :| k in pending;
      stored[k].Dispose();
      pending := pending - {k};
    }
  }
}
