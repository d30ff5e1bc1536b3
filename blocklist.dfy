/**
  The block list asset (Assets/BonesCubed/Runtime/Scripts/BlockList.cs): an ordered array of
  block types, and a cache built from it once — the distinct block models and materials in
  first-appearance order, and one metadata entry per block holding its model id (the model's
  index plus one, so that 0 can mean "no model") and its material id (the material's index),
  both stored as 16-bit unsigned values.
*/
module BlockLists {
  import opened IntMath
  import opened Lists

  /** A block type asset: its name, its block model and its material. */
  datatype BlockType<M, A> = BlockType(name: string, blockModel: M, material: A)

  /** The unmanaged metadata of one block type. */
  datatype BlockMeta = BlockMeta(modelId: int, materialId: int)

  /** The block models of the blocks, in block order. */
  function Models<M, A>(bs: seq<BlockType<M, A>>): (r: seq<M>)
    ensures |r| == |bs| && forall i :: 0 <= i < |bs| ==> r[i] == bs[i].blockModel
  {
    seq(|bs|, i requires 0 <= i < |bs| => bs[i].blockModel)
  }

  /** The materials of the blocks, in block order. */
  function Materials<M, A>(bs: seq<BlockType<M, A>>): (r: seq<A>)
    ensures |r| == |bs| && forall i :: 0 <= i < |bs| ==> r[i] == bs[i].material
  {
    seq(|bs|, i requires 0 <= i < |bs| => bs[i].material)
  }

  /** The distinct models, in first-appearance order. */
  function ModelTable<M(==), A>(bs: seq<BlockType<M, A>>): seq<M> {
    AddAll([], Models(bs))
  }

  /** The distinct materials, in first-appearance order. */
  function MaterialTable<M, A(==)>(bs: seq<BlockType<M, A>>): seq<A> {
    AddAll([], Materials(bs))
  }

  /** The cache under construction: the two tables and the metadata entries so far. */
  datatype Cache<M, A> = Cache(models: seq<M>, materials: seq<A>, metas: seq<BlockMeta>)

  /**
    One pass of the cache loop: add the block's model and material unless present, then
    append its metadata, looked up in the tables as they now stand.
  */
  function CacheStep<M(==), A(==)>(c: Cache<M, A>, b: BlockType<M, A>): Cache<M, A> {
    var models := AddIfAbsent(c.models, b.blockModel);
    var materials := AddIfAbsent(c.materials, b.material);
    Cache(models, materials, c.metas + [MetaFor(models, materials, b)])
  }

  /** A block's metadata, looked up in the given tables: model index plus one, material index, each cut to 16 bits. */
  function MetaFor<M(==), A(==)>(models: seq<M>, materials: seq<A>, b: BlockType<M, A>): BlockMeta {
    BlockMeta(ToUShort(IndexOf(models, b.blockModel) + 1), ToUShort(IndexOf(materials, b.material)))
  }

  /** The metadata entries for the first n blocks, each looked up in the tables as they stand right after its block. */
  function MetasUpTo<M(==), A(==)>(bs: seq<BlockType<M, A>>, n: nat): (r: seq<BlockMeta>)
    requires n <= |bs|
    ensures |r| == n
  {
    seq(n, i requires 0 <= i < n => MetaFor(Added([], Models(bs), i + 1), Added([], Materials(bs), i + 1), bs[i]))
  }

  /** The cache after the loop has passed over the first n blocks (see `CacheStepAdvances`). */
  function CacheUpTo<M(==), A(==)>(bs: seq<BlockType<M, A>>, n: nat): Cache<M, A>
    requires n <= |bs|
  {
    Cache(Added([], Models(bs), n), Added([], Materials(bs), n), MetasUpTo(bs, n))
  }

  /** The finished cache. */
  function CacheOf<M(==), A(==)>(bs: seq<BlockType<M, A>>): Cache<M, A> {
    CacheUpTo(bs, |bs|)
  }

  /** `CacheUpTo` is the loop's fold: it starts empty and each block advances it by one `CacheStep`. */
  lemma CacheStepAdvances<M, A>(bs: seq<BlockType<M, A>>, i: nat)
    requires i < |bs|
    ensures CacheUpTo(bs, 0) == Cache([], [], [])
    ensures CacheStep(CacheUpTo(bs, i), bs[i]) == CacheUpTo(bs, i + 1)
  {
    var c := CacheUpTo(bs, i);
    var models := AddIfAbsent(c.models, bs[i].blockModel);
    var materials := AddIfAbsent(c.materials, bs[i].material);
    assert models == Added([], Models(bs), i + 1);
    assert materials == Added([], Materials(bs), i + 1);
    assert c.metas + [MetaFor(models, materials, bs[i])] == MetasUpTo(bs, i + 1);
  }

  /**
    The cache's tables are duplicate-free and hold exactly the blocks' models and materials.
  */
  lemma TablesAreDistinct<M, A>(bs: seq<BlockType<M, A>>)
    ensures NoDup(ModelTable(bs)) && NoDup(MaterialTable(bs))
    ensures forall i :: 0 <= i < |bs| ==> bs[i].blockModel in ModelTable(bs) && bs[i].material in MaterialTable(bs)
    ensures forall m :: m in ModelTable(bs) ==> m in Models(bs)
    ensures forall a :: a in MaterialTable(bs) ==> a in Materials(bs)
  {
    AddedContents([], Models(bs), |bs|);
    AddedContents([], Materials(bs), |bs|);
    assert Models(bs)[..|bs|] == Models(bs);
    assert Materials(bs)[..|bs|] == Materials(bs);
  }

  /**
    Entry i of the metadata is looked up in the finished tables: later blocks never move a
    model or material that block i already found.
  */
  lemma MetaIsFinalLookup<M, A>(bs: seq<BlockType<M, A>>, i: nat)
    requires i < |bs|
    ensures CacheOf(bs).models == ModelTable(bs) && CacheOf(bs).materials == MaterialTable(bs)
    ensures |CacheOf(bs).metas| == |bs|
    ensures CacheOf(bs).metas[i] == MetaFor(ModelTable(bs), MaterialTable(bs), bs[i])
  {
    var models := Added([], Models(bs), i + 1);
    var materials := Added([], Materials(bs), i + 1);
    assert CacheOf(bs).metas[i] == MetaFor(models, materials, bs[i]);
    IndexAfterAdd([], Models(bs), i);
    IndexAfterAdd([], Materials(bs), i);
    assert IndexOf(models, bs[i].blockModel) == IndexOf(ModelTable(bs), bs[i].blockModel);
    assert IndexOf(materials, bs[i].material) == IndexOf(MaterialTable(bs), bs[i].material);
  }

  /**
    Entry i of the metadata is block i's model index in the finished model table plus one,
    and its material index in the finished material table, each cut to 16 bits. While the
    tables are small enough not to wrap, the model id is at least 1 and names block i's model,
    and the material id names block i's material.
  */
  lemma MetaNamesBlock<M, A>(bs: seq<BlockType<M, A>>, i: nat)
    requires i < |bs|
    ensures |CacheOf(bs).metas| == |bs|
    ensures 0 <= IndexOf(ModelTable(bs), bs[i].blockModel) && 0 <= IndexOf(MaterialTable(bs), bs[i].material)
    ensures CacheOf(bs).metas[i].modelId == ToUShort(IndexOf(ModelTable(bs), bs[i].blockModel) + 1)
    ensures CacheOf(bs).metas[i].materialId == ToUShort(IndexOf(MaterialTable(bs), bs[i].material))
    ensures |ModelTable(bs)| < 65536 ==>
      1 <= CacheOf(bs).metas[i].modelId && ModelTable(bs)[CacheOf(bs).metas[i].modelId - 1] == bs[i].blockModel
    ensures |MaterialTable(bs)| <= 65536 ==>
      MaterialTable(bs)[CacheOf(bs).metas[i].materialId] == bs[i].material
  {
    MetaIsFinalLookup(bs, i);
    IndexAfterAdd([], Models(bs), i);
    IndexAfterAdd([], Materials(bs), i);
    var m := IndexOf(ModelTable(bs), bs[i].blockModel);
    var a := IndexOf(MaterialTable(bs), bs[i].material);
    assert CacheOf(bs).metas[i] == BlockMeta(ToUShort(m + 1), ToUShort(a));
  }

  /** The distinct models appear in the order in which the blocks first use them. */
  lemma ModelTableInFirstUseOrder<M, A>(bs: seq<BlockType<M, A>>, i: nat, j: nat)
    requires i < j < |ModelTable(bs)|
    ensures 0 <= IndexOf(Models(bs), ModelTable(bs)[i]) < IndexOf(Models(bs), ModelTable(bs)[j])
  {
    AddAllFirstAppearance(Models(bs), i, j);
  }

  /** The index of the first block named `name`, or -1. */
  function FirstNamed<M, A>(bs: seq<BlockType<M, A>>, name: string): (r: int)
    ensures -1 <= r < |bs|
    ensures 0 <= r ==> bs[r].name == name
    ensures forall j :: 0 <= j < |bs| && (r == -1 || j < r) ==> bs[j].name != name
  {
    if |bs| == 0 then -1
    else if bs[0].name == name then 0
    else
      var r := FirstNamed(bs[1..], name);
      if r == -1 then -1 else r + 1
  }

  /** The loop body for one block. */
  method AddBlock<M(==), A(==)>(models: seq<M>, materials: seq<A>, metas: seq<BlockMeta>, b: BlockType<M, A>)
    returns (models': seq<M>, materials': seq<A>, metas': seq<BlockMeta>)
    ensures Cache(models', materials', metas') == CacheStep(Cache(models, materials, metas), b)
  {
    models', materials' := models, materials;
    if b.blockModel !in models' {
      models' := models' + [b.blockModel];
    }
    if b.material !in materials' {
      materials' := materials' + [b.material];
    }
    var meta := BlockMeta(ToUShort(IndexOf(models', b.blockModel) + 1), ToUShort(IndexOf(materials', b.material)));
    metas' := metas + [meta];
  }

  /** The cache loop, building the two tables and the metadata entries block by block. */
  method BuildCache<M(==), A(==)>(blocks: seq<BlockType<M, A>>) returns (models: seq<M>, materials: seq<A>, metas: seq<BlockMeta>)
    ensures Cache(models, materials, metas) == CacheOf(blocks)
  {
    models, materials, metas := [], [], [];
    for i := 0 to |blocks|
      invariant Cache(models, materials, metas) == CacheUpTo(blocks, i)
    {
      CacheStepAdvances(blocks, i);
      models, materials, metas := AddBlock(models, materials, metas, blocks[i]);
    }
  }

  /** Copies the metadata entries into a new unmanaged array, element by element. */
  method CopyMetas(metas: seq<BlockMeta>) returns (r: array<BlockMeta>)
    ensures fresh(r) && r[..] == metas
  {
    r := new BlockMeta[|metas|](_ => BlockMeta(0, 0));
    for i := 0 to r.Length
      invariant r[..i] == metas[..i]
    {
      r[i] := metas[i];
    }
  }

  /** The index of the first block named `name`, or -1: the name search loop. */
  method FindBlock<M, A>(blocks: seq<BlockType<M, A>>, name: string) returns (r: int)
    ensures r == FirstNamed(blocks, name)
  {
    for i := 0 to |blocks|
      invariant forall j :: 0 <= j < i ==> blocks[j].name != name
    {
      if blocks[i].name == name {
        return i;
      }
    }
    return -1;
  }

  class BlockList<M(==), A(==)> {
    const blocks: seq<BlockType<M, A>>
    var modelList: seq<M>
    var materialList: seq<A>
    var metaList: seq<BlockMeta>
    var cacheLoaded: bool

    /** Once loaded, the cache is what the blocks determine. */
    ghost predicate Valid()
      reads this
    {
      cacheLoaded ==>
        Cache(modelList, materialList, metaList) == CacheOf(blocks)
    }

    constructor (blocks: seq<BlockType<M, A>>)
      ensures this.blocks == blocks && !cacheLoaded && Valid()
    {
      this.blocks := blocks;
      modelList, materialList, metaList := [], [], [];
      cacheLoaded := false;
    }

    /** `LoadCache`: builds the tables the first time and does nothing afterwards. */
    method LoadCache()
      requires Valid()
      modifies this
      ensures Valid() && cacheLoaded
      ensures old(cacheLoaded) ==> unchanged(this)
    {
      if cacheLoaded {
        return;
      }
      cacheLoaded := true;
      modelList, materialList, metaList := BuildCache(blocks);
    }

    /** `LoadBlockModels`, up to the model loader it hands the table to: the distinct models. */
    method LoadBlockModels() returns (r: seq<M>)
      requires Valid()
      modifies this
      ensures Valid() && cacheLoaded && r == CacheOf(blocks).models
    {
      LoadCache();
      r := modelList;
    }

    /** `LoadBlockMaterials`: the distinct materials, in first-appearance order. */
    method LoadBlockMaterials() returns (r: seq<A>)
      requires Valid()
      modifies this
      ensures Valid() && cacheLoaded && r == CacheOf(blocks).materials
    {
      LoadCache();
      r := materialList;
    }

    /** `LoadBlockMetas`: a new array holding the metadata entries, one per block. */
    method LoadBlockMetas() returns (r: array<BlockMeta>)
      requires Valid()
      modifies this
      ensures Valid() && cacheLoaded && fresh(r) && r[..] == CacheOf(blocks).metas
    {
      LoadCache();
      r := CopyMetas(metaList);
    }

    /** `GetBlockID`: the index of the first block with the given name, or -1. */
    method GetBlockID(name: string) returns (r: int)
      ensures r == FirstNamed(blocks, name)
    {
      r := FindBlock(blocks, name);
    }
  }
}
