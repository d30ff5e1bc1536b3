/**
  The block model asset of the runtime scripts (Runtime/BlockModel.cs): an ordered list of
  variants, each naming a static mesh and a transform. `GetVariants` registers every variant's
  mesh in a mesh list shared with the caller — adding it only when absent — and returns one
  entry per variant with the transform and the index of its mesh in that list.

  The transform is the translation-rotation-scale matrix of the variant's three vectors; its
  floating-point construction is the function parameter `trs`.
*/
module RuntimeBlockModels {
  import opened Lists

  /** A configured variant: its static mesh and the three vectors of its transform. */
  datatype BlockModelVariant<Mesh, V> = BlockModelVariant(staticMesh: Mesh, translation: V, rotation: V, scale: V)

  /** An entry of the result: the variant's transform and the index of its mesh. */
  datatype ModelVariant<X> = ModelVariant(transform: X, meshIndex: int)

  /** The managed mesh list the caller passes in and keeps. */
  class MeshList<Mesh> {
    var items: seq<Mesh>

    constructor (items: seq<Mesh>)
      ensures this.items == items
    {
      this.items := items;
    }
  }

  /** The static meshes of the variants, in order. */
  function Meshes<Mesh, V>(vs: seq<BlockModelVariant<Mesh, V>>): (r: seq<Mesh>)
    ensures |r| == |vs| && forall i :: 0 <= i < |vs| ==> r[i] == vs[i].staticMesh
  {
    seq(|vs|, i requires 0 <= i < |vs| => vs[i].staticMesh)
  }

  /** The entry for one variant, given the mesh list as it stands after the variant's mesh was registered. */
  function EntryFor<Mesh(==), V, X>(meshes: seq<Mesh>, v: BlockModelVariant<Mesh, V>, trs: (V, V, V) -> X): ModelVariant<X> {
    ModelVariant(trs(v.translation, v.rotation, v.scale), IndexOf(meshes, v.staticMesh))
  }

  /** The entries after the first n variants, each looked up right after its own registration. */
  function EntriesUpTo<Mesh(==), V, X>(start: seq<Mesh>, vs: seq<BlockModelVariant<Mesh, V>>, trs: (V, V, V) -> X, n: nat): seq<ModelVariant<X>>
    requires n <= |vs|
  {
    if n == 0 then []
    else EntriesUpTo(start, vs, trs, n - 1) + [EntryFor(Added(start, Meshes(vs), n), vs[n - 1], trs)]
  }

  lemma {:induction false} EntriesUpToEntry<Mesh, V, X>(start: seq<Mesh>, vs: seq<BlockModelVariant<Mesh, V>>, trs: (V, V, V) -> X, n: nat, i: nat)
    requires i < n <= |vs|
    ensures |EntriesUpTo(start, vs, trs, n)| == n
    ensures EntriesUpTo(start, vs, trs, n)[i] == EntryFor(Added(start, Meshes(vs), i + 1), vs[i], trs)
  {
    if i < n - 1 {
      EntriesUpToEntry(start, vs, trs, n - 1, i);
      var e := EntriesUpTo(start, vs, trs, n - 1);
      assert EntriesUpTo(start, vs, trs, n)[i] == e[i];
    } else if n > 1 {
      EntriesUpToEntry(start, vs, trs, n - 1, 0);
    }
  }

  /**
    The result has one entry per variant, in order; entry i carries variant i's transform and
    the first index of its mesh in the final mesh list, which holds that mesh.
  */
  lemma VariantEntry<Mesh, V, X>(start: seq<Mesh>, vs: seq<BlockModelVariant<Mesh, V>>, trs: (V, V, V) -> X, i: nat)
    requires i < |vs|
    ensures |EntriesUpTo(start, vs, trs, |vs|)| == |vs|
    ensures EntriesUpTo(start, vs, trs, |vs|)[i].transform == trs(vs[i].translation, vs[i].rotation, vs[i].scale)
    ensures EntriesUpTo(start, vs, trs, |vs|)[i].meshIndex == IndexOf(AddAll(start, Meshes(vs)), vs[i].staticMesh)
    ensures 0 <= EntriesUpTo(start, vs, trs, |vs|)[i].meshIndex < |AddAll(start, Meshes(vs))|
    ensures AddAll(start, Meshes(vs))[EntriesUpTo(start, vs, trs, |vs|)[i].meshIndex] == vs[i].staticMesh
  {
    EntriesUpToEntry(start, vs, trs, |vs|, i);
    IndexAfterAdd(start, Meshes(vs), i);
  }

  /**
    The mesh list only grows: the meshes already listed keep their positions, every variant's
    mesh is listed afterwards, only variants' meshes are added, and a duplicate-free list
    stays duplicate-free.
  */
  lemma MeshListGrows<Mesh, V>(start: seq<Mesh>, vs: seq<BlockModelVariant<Mesh, V>>)
    ensures |AddAll(start, Meshes(vs))| >= |start| && AddAll(start, Meshes(vs))[..|start|] == start
    ensures forall i :: 0 <= i < |vs| ==> vs[i].staticMesh in AddAll(start, Meshes(vs))
    ensures forall m :: m in AddAll(start, Meshes(vs)) ==> m in start || m in Meshes(vs)
    ensures NoDup(start) ==> NoDup(AddAll(start, Meshes(vs)))
  {
    AddedContents(start, Meshes(vs), |vs|);
    assert Meshes(vs)[..|vs|] == Meshes(vs);
  }

  /** The loop body for one variant: register its mesh, then make its entry. */
  method AddVariant<Mesh(==), V, X>(meshList: MeshList<Mesh>, v: BlockModelVariant<Mesh, V>, trs: (V, V, V) -> X)
    returns (entry: ModelVariant<X>)
    modifies meshList
    ensures meshList.items == AddIfAbsent(old(meshList.items), v.staticMesh)
    ensures entry == EntryFor(meshList.items, v, trs)
  {
    if v.staticMesh !in meshList.items {
      meshList.items := meshList.items + [v.staticMesh];
    }
    entry := ModelVariant(trs(v.translation, v.rotation, v.scale), IndexOf(meshList.items, v.staticMesh));
  }

  class BlockModel<Mesh(==), V> {
    const modelVariants: seq<BlockModelVariant<Mesh, V>>

    constructor (modelVariants: seq<BlockModelVariant<Mesh, V>>)
      ensures this.modelVariants == modelVariants
    {
      this.modelVariants := modelVariants;
    }

    /** `GetVariants`: registers the variants' meshes in `meshList` and returns their entries. */
    method GetVariants<X>(meshList: MeshList<Mesh>, trs: (V, V, V) -> X) returns (list: seq<ModelVariant<X>>)
      modifies meshList
      ensures meshList.items == AddAll(old(meshList.items), Meshes(modelVariants))
      ensures list == EntriesUpTo(old(meshList.items), modelVariants, trs, |modelVariants|)
    {
      ghost var start := meshList.items;
      list := [];
      for i := 0 to |modelVariants|
        invariant meshList.items == Added(start, Meshes(modelVariants), i)
        invariant list == EntriesUpTo(start, modelVariants, trs, i)
      {
        var entry := AddVariant(meshList, modelVariants[i], trs);
        list := list + [entry];
      }
    }
  }
}
