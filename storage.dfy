/**
  The managed block storage of the older code base (Common/Storage): a world maps chunk
  origins to chunks, a chunk holds 4096 blocks in a z-major array, and a block carries a block
  type and the property values that differ from the type's defaults.

  A block type's default property table belongs to the block type interface, which is not
  part of this model; here it is the map `defaultProperties`. Null references are `Option`s
  (`None` for a block whose type was never set).
*/
module Storage {
  import opened Wrappers
  import opened Coordinates
  import opened ChunkLoops

  /** A block type: its name and its default property values. */
  datatype BlockType = BlockType(name: string, defaultProperties: map<string, string>)

  // ----- block properties -----

  /**
    The property getter: an override wins, then the type's default; a name the type does not
    define is an ArgumentException, and a block without a type fails on the null reference.
  */
  function ReadProperty(overrides: map<string, string>, blockType: Option<BlockType>, property: string): Result<string> {
    if property in overrides then Ok(overrides[property])
    else if blockType.None? then Err(NullReference)
    else if property in blockType.value.defaultProperties then Ok(blockType.value.defaultProperties[property])
    else Err(InvalidArgument)
  }

  /**
    The property setter: only names the type defines may be written; writing the default
    removes the override, writing anything else stores it.
  */
  function WriteProperty(overrides: map<string, string>, blockType: Option<BlockType>, property: string, value: string): Result<map<string, string>> {
    if blockType.None? then Err(NullReference)
    else if property !in blockType.value.defaultProperties then Err(InvalidArgument)
    else if value == blockType.value.defaultProperties[property] then Ok(overrides - {property})
    else Ok(overrides[property := value])
  }

  /** The overrides hold only names the current type defines, each with a value other than its default. */
  predicate OverridesValid(overrides: map<string, string>, blockType: Option<BlockType>) {
    match blockType
    case None => overrides == map[]
    case Some(t) =>
      forall k :: k in overrides ==> k in t.defaultProperties && overrides[k] != t.defaultProperties[k]
  }

  /** A write fails exactly when the block has no type or the type does not define the name, and keeps the overrides valid. */
  lemma WriteRule(overrides: map<string, string>, blockType: Option<BlockType>, property: string, value: string)
    requires OverridesValid(overrides, blockType)
    ensures WriteProperty(overrides, blockType, property, value) == Err(NullReference) <==> blockType.None?
    ensures WriteProperty(overrides, blockType, property, value) == Err(InvalidArgument) <==>
      blockType.Some? && property !in blockType.value.defaultProperties
    ensures WriteProperty(overrides, blockType, property, value).Ok? ==>
      OverridesValid(WriteProperty(overrides, blockType, property, value).value, blockType)
  {
  }

  /** Reading a property after writing it gives the written value; no other property changes. */
  lemma ReadAfterWrite(overrides: map<string, string>, blockType: Option<BlockType>, property: string, value: string, other: string)
    requires WriteProperty(overrides, blockType, property, value).Ok?
    ensures ReadProperty(WriteProperty(overrides, blockType, property, value).value, blockType, property) == Ok(value)
    ensures other != property ==>
      ReadProperty(WriteProperty(overrides, blockType, property, value).value, blockType, other) == ReadProperty(overrides, blockType, other)
  {
  }

  /** Writing a property's default leaves no override for it; writing another value leaves one. */
  lemma DefaultWriteRemovesOverride(overrides: map<string, string>, t: BlockType, property: string, value: string)
    requires property in t.defaultProperties
    ensures var m := WriteProperty(overrides, Some(t), property, value).value;
      (property in m <==> value != t.defaultProperties[property])
  {
  }

  /**
    With valid overrides a read succeeds exactly for the names the type defines; a block
    without a type fails every read.
  */
  lemma ReadRule(overrides: map<string, string>, blockType: Option<BlockType>, property: string)
    requires OverridesValid(overrides, blockType)
    ensures blockType.None? ==> ReadProperty(overrides, blockType, property) == Err(NullReference)
    ensures blockType.Some? ==>
      (ReadProperty(overrides, blockType, property).Ok? <==> property in blockType.value.defaultProperties)
    ensures blockType.Some? && property !in blockType.value.defaultProperties ==>
      ReadProperty(overrides, blockType, property) == Err(InvalidArgument)
  {
  }

  /** Right after the type is set, every property reads as the type's default. */
  lemma FreshTypeReadsDefaults(t: BlockType, property: string)
    ensures OverridesValid(map[], Some(t))
    ensures property in t.defaultProperties ==> ReadProperty(map[], Some(t), property) == Ok(t.defaultProperties[property])
  {
  }

  // ----- chunk slots -----

  /** The array slot the chunk indexer reads for `pos`, taken as given: z-major, no masking. */
  function SlotOf(pos: BlockPos): (r: int)
    ensures InChunk(pos) ==> 0 <= r < ChunkVolume
  {
    pos.z * 16 * 16 + pos.y * 16 + pos.x
  }

  /** The local position whose slot is `s`. */
  function SlotPos(s: int): (p: BlockPos)
    requires 0 <= s < ChunkVolume
    ensures InChunk(p)
  {
    BlockPos(s % 16, (s / 16) % 16, s / 256)
  }

  /** A local position's slot leads back to it, and is the slot `Index` computes. */
  lemma SlotPosOfSlot(p: BlockPos)
    requires InChunk(p)
    ensures SlotPos(SlotOf(p)) == p && SlotOf(p) == Index(p)
  {
  }

  /** A slot's local position leads back to it: slots and local positions correspond one to one. */
  lemma SlotOfSlotPos(s: int)
    requires 0 <= s < ChunkVolume
    ensures SlotOf(SlotPos(s)) == s
  {
  }

  /** The slot the constructor writes as written: `p.z` where `p.x` belongs. */
  function AsWrittenSlot(p: BlockPos): int {
    p.z * 16 * 16 + p.y * 16 + p.z
  }

  class Block {
    const chunk: Chunk
    const position: BlockPos
    var properties: map<string, string>
    var blockType: Option<BlockType>

    ghost predicate Valid()
      reads this
    {
      OverridesValid(properties, blockType)
    }

    /** A new block of `chunk` at world position `pos`, with no type and no overrides. */
    constructor (chunk: Chunk, pos: BlockPos)
      ensures this.chunk == chunk && position == pos
      ensures properties == map[] && blockType == None && Valid()
    {
      this.chunk := chunk;
      position := pos;
      properties := map[];
      blockType := None;
    }

    /** The `BlockType` setter: null is rejected and changes nothing; a type replaces the old one and clears every override. */
    method SetBlockType(value: Option<BlockType>) returns (r: Outcome)
      modifies this
      ensures value.None? ==> r == Fail(ArgumentNull) && unchanged(this)
      ensures value.Some? ==> r == Pass && blockType == value && properties == map[] && Valid()
    {
      if value.None? {
        return Fail(ArgumentNull);
      }
      blockType := value;
      properties := map[];
      r := Pass;
    }

    /** The property getter. */
    function Get(property: string): Result<string>
      reads this
    {
      ReadProperty(properties, blockType, property)
    }

    /** The property setter: on failure nothing changes; the block type never changes. */
    method Set(property: string, value: string) returns (r: Outcome)
      requires Valid()
      modifies this
      ensures Valid() && blockType == old(blockType)
      ensures WriteProperty(old(properties), blockType, property, value).Ok? ==>
        r == Pass && properties == WriteProperty(old(properties), blockType, property, value).value
      ensures WriteProperty(old(properties), blockType, property, value).Err? ==>
        r == Fail(WriteProperty(old(properties), blockType, property, value).error) && properties == old(properties)
      ensures r == Pass ==> Get(property) == Ok(value)
    {
      WriteRule(properties, blockType, property, value);
      if blockType.None? {
        return Fail(NullReference);
      }
      var defaults := blockType.value.defaultProperties;
      if property !in defaults {
        return Fail(InvalidArgument);
      }
      var defaultValue := defaults[property];
      if value == defaultValue {
        properties := properties - {property};
      } else {
        properties := properties[property := value];
      }
      ReadAfterWrite(old(properties), blockType, property, value, property);
      r := Pass;
    }
  }

  class Chunk {
    const world: World
    const position: BlockPos
    const blocks: array<Block?>

    /** The slot of every local position holds a block of this chunk, placed at the chunk position plus that local position. */
    ghost predicate Valid()
      reads blocks
    {
      blocks.Length == ChunkVolume && forall p :: InChunk(p) ==> Placed(blocks, this, position, p)
    }

    /**
      The constructor: one new block for every local position of `OverChunk`, stored in the
      slot the indexer reads for it. The `foreach` over the iterator is written as the
      iterator's own three loops: x outermost, then z, then y.
    */
    constructor (world: World, pos: BlockPos)
      ensures this.world == world && position == pos && fresh(blocks) && Valid()
    {
      this.world := world;
      position := pos;
      blocks := new Block?[ChunkVolume](_ => null);
      new;
      ghost var k := 0;
      for x := 0 to 16
        invariant k == x * 256
        invariant forall p :: InChunk(p) && Rank(p) < k ==> Placed(blocks, this, pos, p)
      {
        FillSlab(this, pos, blocks, x, k);
        k := k + 256;
      }
      forall p | InChunk(p)
        ensures Placed(blocks, this, pos, p)
      {
        RankRule(p, p);
      }
    }

    /** The indexer: the block in the slot `pos` names; a slot outside the array is an IndexOutOfRangeException. */
    function Get(pos: BlockPos): (r: Result<Block?>)
      reads blocks
      ensures r.Ok? <==> 0 <= SlotOf(pos) < blocks.Length
    {
      var index := SlotOf(pos);
      if 0 <= index < blocks.Length then Ok(blocks[index]) else Err(IndexOutOfRange)
    }
  }

  /** The y loop of the constructor as written, over the column (x, z): every write goes to the slot of local (z, y, z). */
  method AsWrittenColumn(chunk: Chunk, origin: BlockPos, blocks: array<Block?>, x: int, z: int)
    requires 0 <= x < 16 && 0 <= z < 16 && blocks.Length == ChunkVolume
    modifies blocks
    ensures forall q :: InChunk(q) && q.x == z && q.z == z ==> Holds(blocks, chunk, q, Add(origin, BlockPos(x, q.y, z)))
    ensures forall q :: InChunk(q) && !(q.x == z && q.z == z) ==> blocks[SlotOf(q)] == old(blocks[SlotOf(q)])
  {
    for y := 0 to 16
      invariant forall q :: InChunk(q) && q.x == z && q.z == z && q.y < y ==> Holds(blocks, chunk, q, Add(origin, BlockPos(x, q.y, z)))
      invariant forall q :: InChunk(q) && !(q.x == z && q.z == z && q.y < y) ==> blocks[SlotOf(q)] == old(blocks[SlotOf(q)])
    {
      var p := BlockPos(x, y, z);
      var target := BlockPos(z, y, z);
      assert AsWrittenSlot(p) == SlotOf(target);
      forall q | InChunk(q) && q != target
        ensures SlotOf(q) != SlotOf(target)
      {
        SlotInjective(q, target);
      }
      blocks[AsWrittenSlot(p)] := new Block(chunk, Add(origin, p));
    }
  }

  /** The z loop of the constructor as written, over the slab x. */
  method AsWrittenSlab(chunk: Chunk, origin: BlockPos, blocks: array<Block?>, x: int)
    requires 0 <= x < 16 && blocks.Length == ChunkVolume
    modifies blocks
    ensures forall q :: InChunk(q) && q.x == q.z ==> Holds(blocks, chunk, q, Add(origin, BlockPos(x, q.y, q.z)))
    ensures forall q :: InChunk(q) && q.x != q.z ==> blocks[SlotOf(q)] == old(blocks[SlotOf(q)])
  {
    for z := 0 to 16
      invariant forall q :: InChunk(q) && q.x == q.z && q.z < z ==> Holds(blocks, chunk, q, Add(origin, BlockPos(x, q.y, q.z)))
      invariant forall q :: InChunk(q) && !(q.x == q.z && q.z < z) ==> blocks[SlotOf(q)] == old(blocks[SlotOf(q)])
    {
      AsWrittenColumn(chunk, origin, blocks, x, z);
    }
  }

  /**
    The constructor's fill as written, on a new (all-null) array: only the slots of local
    positions with x == z receive a block, and each holds the block made last for it, the one
    for local (15, y, z). The indexer therefore returns null everywhere else.
  */
  method AsWrittenFill(chunk: Chunk, origin: BlockPos, blocks: array<Block?>)
    requires blocks.Length == ChunkVolume && forall t :: 0 <= t < ChunkVolume ==> blocks[t] == null
    modifies blocks
    ensures forall q :: InChunk(q) ==> (blocks[SlotOf(q)] != null <==> q.x == q.z)
    ensures forall q :: InChunk(q) && q.x == q.z ==> Holds(blocks, chunk, q, Add(origin, BlockPos(15, q.y, q.z)))
  {
    for x := 0 to 16
      invariant forall q :: InChunk(q) && q.x != q.z ==> blocks[SlotOf(q)] == null
      invariant x == 0 ==> forall q :: InChunk(q) ==> blocks[SlotOf(q)] == null
      invariant x > 0 ==> forall q :: InChunk(q) && q.x == q.z ==> Holds(blocks, chunk, q, Add(origin, BlockPos(x - 1, q.y, q.z)))
    {
      AsWrittenSlab(chunk, origin, blocks, x);
    }
  }

  /** Given a local position, the indexer of a filled chunk returns the block standing there. */
  lemma LocalPositionFindsBlock(c: Chunk, pos: BlockPos)
    requires c.Valid() && InChunk(pos)
    ensures c.Get(pos).Ok? && c.Get(pos).value != null
    ensures c.Get(pos).value.chunk == c && c.Get(pos).value.position == Add(c.position, pos)
  {
  }

  /** Distinct local positions have distinct slots. */
  lemma SlotInjective(p: BlockPos, q: BlockPos)
    requires InChunk(p) && InChunk(q) && p != q
    ensures SlotOf(p) != SlotOf(q)
  {
    SlotPosOfSlot(p);
    SlotPosOfSlot(q);
  }

  /** The slot of local position `q` holds a block of `chunk` standing at world position `at`. */
  ghost predicate Holds(blocks: array<Block?>, chunk: Chunk, q: BlockPos, at: BlockPos)
    reads blocks
  {
    0 <= SlotOf(q) < blocks.Length && blocks[SlotOf(q)] != null &&
    blocks[SlotOf(q)].chunk == chunk && blocks[SlotOf(q)].position == at
  }

  /** The slot of local position `p` holds a block of `chunk` standing at `origin` plus `p`. */
  ghost predicate Placed(blocks: array<Block?>, chunk: Chunk, origin: BlockPos, p: BlockPos)
    reads blocks
  {
    Holds(blocks, chunk, p, Add(origin, p))
  }

  /** The step at which the iterator's loops (x, then z, then y) reach local position `p`. */
  function Rank(p: BlockPos): int {
    p.x * 256 + p.z * 16 + p.y
  }

  /** The loops visit each local position at its own step, and the 4096 steps in order. */
  lemma RankRule(p: BlockPos, q: BlockPos)
    requires InChunk(p) && InChunk(q)
    ensures 0 <= Rank(p) < ChunkVolume
    ensures Rank(p) == Rank(q) ==> p == q
  {
  }

  /** One pass of the innermost loop: local (x, y, z) gets its block. */
  method PlaceBlock(chunk: Chunk, origin: BlockPos, blocks: array<Block?>, q: BlockPos, ghost k: int)
    requires InChunk(q) && Rank(q) == k && blocks.Length == ChunkVolume
    requires forall p :: InChunk(p) && Rank(p) < k ==> Placed(blocks, chunk, origin, p)
    modifies blocks
    ensures forall p :: InChunk(p) && Rank(p) < k + 1 ==> Placed(blocks, chunk, origin, p)
  {
    forall p | InChunk(p) && Rank(p) < k
      ensures SlotOf(p) != SlotOf(q)
    {
      RankRule(p, q);
      SlotInjective(p, q);
    }
    blocks[SlotOf(q)] := new Block(chunk, Add(origin, q));
    forall p | InChunk(p) && Rank(p) < k + 1
      ensures Placed(blocks, chunk, origin, p)
    {
      RankRule(p, q);
    }
  }

  /** The y loop over one (x, z) column. */
  method FillColumn(chunk: Chunk, origin: BlockPos, blocks: array<Block?>, x: int, z: int, ghost k: int)
    requires 0 <= x < 16 && 0 <= z < 16 && k == x * 256 + z * 16 && blocks.Length == ChunkVolume
    requires forall p :: InChunk(p) && Rank(p) < k ==> Placed(blocks, chunk, origin, p)
    modifies blocks
    ensures forall p :: InChunk(p) && Rank(p) < k + 16 ==> Placed(blocks, chunk, origin, p)
  {
    for y := 0 to 16
      invariant forall p :: InChunk(p) && Rank(p) < k + y ==> Placed(blocks, chunk, origin, p)
    {
      PlaceBlock(chunk, origin, blocks, BlockPos(x, y, z), k + y);
    }
  }

  /** The z loop over one x slab. */
  method FillSlab(chunk: Chunk, origin: BlockPos, blocks: array<Block?>, x: int, ghost k: int)
    requires 0 <= x < 16 && k == x * 256 && blocks.Length == ChunkVolume
    requires forall p :: InChunk(p) && Rank(p) < k ==> Placed(blocks, chunk, origin, p)
    modifies blocks
    ensures forall p :: InChunk(p) && Rank(p) < k + 256 ==> Placed(blocks, chunk, origin, p)
  {
    ghost var n := k;
    for z := 0 to 16
      invariant n == k + z * 16
      invariant forall p :: InChunk(p) && Rank(p) < n ==> Placed(blocks, chunk, origin, p)
    {
      FillColumn(chunk, origin, blocks, x, z, n);
      n := n + 16;
    }
  }

  /**
    Given a world position rather than a local one, the indexer misses outside the chunk at
    the origin: for a chunk at non-negative coordinates, a position inside it reads a block
    standing somewhere else, and from the second layer of chunks along z on it is out of
    range.
  */
  lemma WorldPositionMissesBlock(c: Chunk, pos: BlockPos)
    requires c.Valid() && c.position == MaskChunk(pos)
    requires Le(Origin, c.position) && c.position != Origin
    ensures c.Get(pos).Ok? ==> c.Get(pos).value != null && c.Get(pos).value.position != pos
    ensures c.position.z > 0 ==> c.Get(pos) == Err(IndexOutOfRange)
  {
    WorldSlotMisses(pos);
    var s := SlotOf(pos);
    if 0 <= s < ChunkVolume {
      var q := SlotPos(s);
      SlotOfSlotPos(s);
    }
  }

  /** The slot arithmetic behind `WorldPositionMissesBlock`. */
  lemma WorldSlotMisses(pos: BlockPos)
    requires Le(Origin, MaskChunk(pos)) && MaskChunk(pos) != Origin
    ensures 0 <= SlotOf(pos) < ChunkVolume ==> Add(MaskChunk(pos), SlotPos(SlotOf(pos))) != pos
    ensures MaskChunk(pos).z > 0 ==> SlotOf(pos) >= ChunkVolume
  {
    var cp := MaskChunk(pos);
    assert Le(cp, pos) && cp.z == 16 * (pos.z / 16);
    assert 0 <= pos.x && 0 <= pos.y && (cp.z > 0 ==> 16 <= pos.z);
    assert SlotOf(cp) > 0;
    var s := SlotOf(pos);
    if 0 <= s < ChunkVolume {
      var q := SlotPos(s);
      SlotOfSlotPos(s);
      assert SlotOf(Add(cp, q)) == SlotOf(cp) + SlotOf(q) > s;
    }
  }

  class World {
    var chunks: map<BlockPos, Chunk>

    /** Each chunk sits under its own origin, belongs to this world and is filled. */
    ghost predicate Valid()
      reads this, set k | k in chunks :: chunks[k].blocks
    {
      forall k :: k in chunks ==>
        MaskChunk(k) == k && chunks[k].position == k && chunks[k].world == this && chunks[k].Valid()
    }

    constructor ()
      ensures chunks == map[] && Valid()
    {
      chunks := map[];
    }

    /**
      `GetChunk`: the chunk stored under `pos & ~15`; when there is none, a new chunk is
      stored and returned if `create` is set, and None is returned otherwise.
    */
    method GetChunk(pos: BlockPos, create: bool) returns (r: Option<Chunk>)
      requires Valid()
      modifies this
      ensures Valid()
      ensures MaskChunk(pos) in old(chunks) ==> r == Some(old(chunks)[MaskChunk(pos)]) && chunks == old(chunks)
      ensures MaskChunk(pos) !in old(chunks) && !create ==> r == None && chunks == old(chunks)
      ensures MaskChunk(pos) !in old(chunks) && create ==>
        r.Some? && fresh(r.value) && chunks == old(chunks)[MaskChunk(pos) := r.value]
      ensures r.Some? ==> r.value.position == MaskChunk(pos) && r.value.Valid() && MaskChunk(pos) in chunks
    {
      var key := MaskChunk(pos);
      ChunkKeyIsOrigin(pos);
      if key in chunks {
        return Some(chunks[key]);
      }
      if !create {
        return None;
      }
      var chunk := new Chunk(this, key);
      chunks := chunks[key := chunk];
      r := Some(chunk);
    }

    /**
      `GetBlock`: the block at `pos`, through the chunk that contains it. The indexer is given
      the position's offset within its chunk.
    */
    method GetBlock(pos: BlockPos, create: bool) returns (r: Result<Option<Block?>>)
      requires Valid()
      modifies this
      ensures Valid()
      ensures MaskChunk(pos) in old(chunks) ==> chunks == old(chunks)
      ensures MaskChunk(pos) !in old(chunks) && !create ==> chunks == old(chunks)
      ensures MaskChunk(pos) !in old(chunks) && create ==>
        MaskChunk(pos) in chunks && fresh(chunks[MaskChunk(pos)]) && chunks == old(chunks)[MaskChunk(pos) := chunks[MaskChunk(pos)]]
      ensures r.Ok?
      ensures MaskChunk(pos) in old(chunks) || create <==> r.value.Some?
      ensures r.value.Some? ==> MaskChunk(pos) in chunks && chunks[MaskChunk(pos)].Get(MaskLow4(pos)) == Ok(r.value.value)
      ensures r.value.Some? ==> r.value.value != null && r.value.value.position == pos
    {
      var chunk := GetChunk(pos, create);
      if chunk.None? {
        return Ok(None);
      }
      var local := MaskLow4(pos);
      ShiftMaskDecomposition(pos);
      LocalPositionFindsBlock(chunk.value, local);
      var b := chunk.value.Get(local);
      assert Add(MaskChunk(pos), local) == pos;
      r := Ok(Some(b.value));
    }

    /** `GetBlock` as written: the chunk's indexer is given the world position itself. */
    method GetBlockAsWritten(pos: BlockPos, create: bool) returns (r: Result<Option<Block?>>)
      requires Valid()
      modifies this
      ensures Valid()
      ensures MaskChunk(pos) in old(chunks) ==> chunks == old(chunks)
      ensures MaskChunk(pos) !in old(chunks) && !create ==> chunks == old(chunks) && r == Ok(None)
      ensures MaskChunk(pos) !in old(chunks) && create ==>
        MaskChunk(pos) in chunks && fresh(chunks[MaskChunk(pos)]) && chunks == old(chunks)[MaskChunk(pos) := chunks[MaskChunk(pos)]]
      ensures MaskChunk(pos) in chunks ==>
        (chunks[MaskChunk(pos)].Get(pos).Ok? ==> r == Ok(Some(chunks[MaskChunk(pos)].Get(pos).value))) &&
        (chunks[MaskChunk(pos)].Get(pos).Err? ==> r == Err(chunks[MaskChunk(pos)].Get(pos).error))
    {
      var chunk := GetChunk(pos, create);
      if chunk.None? {
        return Ok(None);
      }
      var b := chunk.value.Get(pos);
      if b.Err? {
        return Err(b.error);
      }
      r := Ok(Some(b.value));
    }
  }

  /** The chunk key of a position is the origin of the 16-cube holding it, and keys are their own keys. */
  lemma ChunkKeyIsOrigin(pos: BlockPos)
    ensures MaskChunk(MaskChunk(pos)) == MaskChunk(pos)
    ensures Le(MaskChunk(pos), pos) && Lt(pos, AddScalar(MaskChunk(pos), 16))
    ensures Add(MaskChunk(pos), MaskLow4(pos)) == pos && InChunk(MaskLow4(pos))
  {
    ShiftMaskDecomposition(pos);
    ChunkOriginBounds(pos);
  }

  /** Two positions share a chunk exactly when they have the same key. */
  lemma SameKeySameCube(p: BlockPos, q: BlockPos)
    ensures MaskChunk(p) == MaskChunk(q) <==>
      (ShiftRight(p.x, 4) == ShiftRight(q.x, 4) && ShiftRight(p.y, 4) == ShiftRight(q.y, 4) && ShiftRight(p.z, 4) == ShiftRight(q.z, 4))
  {
    ShiftMaskDecomposition(p);
    ShiftMaskDecomposition(q);
    assert Pow2(4) == 16;
  }
}
