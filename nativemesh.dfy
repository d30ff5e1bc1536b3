/**
  A mesh made of submeshes, each a vertex list and an index list
  (Assets/BonesCubed/Common/Native/NativeMesh.cs). The mesh concatenates the submeshes' lists
  into one vertex buffer and one index buffer and describes each submesh by its offsets into
  them. The Unity `Mesh` it fills is modelled as a `MeshData` value holding the buffers, the
  submesh count and the descriptors written to each submesh slot.
*/
module NativeMeshes {
  import opened Wrappers
  import opened NativeUtils

  /** A `NativeSubmesh`: its vertex list and its index list. */
  datatype Submesh<V, I> = Submesh(vertices: seq<V>, indices: seq<I>)

  /** The index element type: the constructor accepts `uint` and `ushort` only. */
  datatype IndexType = UInt32 | UInt16 | OtherIndexType

  /** The fields of a `SubMeshDescriptor` that `ApplyToMesh` sets (the topology is always triangles). */
  datatype Descriptor = Descriptor(indexCount: int, baseVertex: int, firstVertex: int, vertexCount: int)

  /** What `ApplyToMesh` leaves in the Unity mesh. */
  datatype MeshData<V, I> = MeshData(
    vertices: seq<V>,
    indices: seq<I>,
    indexFormat: IndexType,
    subMeshCount: int,
    descriptors: map<int, Descriptor>)

  /** The lists laid end to end. */
  function Flatten<X>(lists: seq<seq<X>>): (r: seq<X>)
  {
    if |lists| == 0 then [] else Flatten(lists[..|lists| - 1]) + lists[|lists| - 1]
  }

  /** The summed list lengths. */
  function Total<X>(lists: seq<seq<X>>): nat
  {
    if |lists| == 0 then 0 else Total(lists[..|lists| - 1]) + |lists[|lists| - 1]|
  }

  /** The summed lengths are the length of the concatenation. */
  lemma {:induction false} TotalIsFlattenLength<X>(lists: seq<seq<X>>)
    ensures Total(lists) == |Flatten(lists)|
    decreases |lists|
  {
    if |lists| > 0 {
      TotalIsFlattenLength(lists[..|lists| - 1]);
    }
  }

  /** Concatenating two runs of lists concatenates their flattenings. */
  lemma {:induction false} FlattenAppend<X>(a: seq<seq<X>>, b: seq<seq<X>>)
    ensures Flatten(a + b) == Flatten(a) + Flatten(b)
    decreases |b|
  {
    if |b| == 0 {
      assert a + b == a;
    } else {
      assert (a + b)[..|a + b| - 1] == a + b[..|b| - 1];
      assert (a + b)[|a + b| - 1] == b[|b| - 1];
      FlattenAppend(a, b[..|b| - 1]);
    }
  }

  /**
    In the concatenation, list `s` occupies the positions from the summed length of the lists
    before it, for its own length.
  */
  lemma ListRangeInFlatten<X>(lists: seq<seq<X>>, s: int)
    requires 0 <= s < |lists|
    ensures Total(lists[..s]) + |lists[s]| == Total(lists[..s + 1]) <= |Flatten(lists)|
    ensures Flatten(lists)[Total(lists[..s])..Total(lists[..s + 1])] == lists[s]
  {
    assert lists == lists[..s + 1] + lists[s + 1..];
    FlattenAppend(lists[..s + 1], lists[s + 1..]);
    assert lists[..s + 1][..s] == lists[..s];
    TotalIsFlattenLength(lists[..s]);
    TotalIsFlattenLength(lists[..s + 1]);
    TotalIsFlattenLength(lists);
  }

  function VertexLists<V, I>(subs: seq<Submesh<V, I>>): (r: seq<seq<V>>)
    ensures |r| == |subs| && forall i :: 0 <= i < |subs| ==> r[i] == subs[i].vertices
  {
    seq(|subs|, i requires 0 <= i < |subs| => subs[i].vertices)
  }

  function IndexLists<V, I>(subs: seq<Submesh<V, I>>): (r: seq<seq<I>>)
    ensures |r| == |subs| && forall i :: 0 <= i < |subs| ==> r[i] == subs[i].indices
  {
    seq(|subs|, i requires 0 <= i < |subs| => subs[i].indices)
  }

  /** The descriptor of submesh `s`: its counts and the offsets summed over the submeshes before it. */
  function DescriptorOf<V, I>(subs: seq<Submesh<V, I>>, s: int): Descriptor
    requires 0 <= s < |subs|
  {
    Descriptor(|subs[s].indices|, Total(VertexLists(subs)[..s]), Total(IndexLists(subs)[..s]), |subs[s].vertices|)
  }

  /** The submesh slots as `ApplyToMesh` leaves them: every descriptor goes to slot 0, so the last one stays. */
  function AsWrittenDescriptors<V, I>(subs: seq<Submesh<V, I>>): map<int, Descriptor>
  {
    if |subs| == 0 then map[] else map[0 := DescriptorOf(subs, |subs| - 1)]
  }

  /** The submesh slots as the submesh count announces them: descriptor `s` in slot `s`. */
  function IntendedDescriptors<V, I>(subs: seq<Submesh<V, I>>): (r: map<int, Descriptor>)
    ensures forall s :: s in r <==> 0 <= s < |subs|
  {
    map s | 0 <= s < |subs| :: DescriptorOf(subs, s)
  }

  /**
    With descriptor `s` in slot `s`, each slot's vertex range in the vertex buffer is exactly
    that submesh's vertices. The field the loop writes as `firstVertex` holds the index offset:
    from it, `indexCount` entries of the index buffer are exactly that submesh's indices.
  */
  lemma IntendedDescriptorsSelectSubmeshes<V, I>(subs: seq<Submesh<V, I>>, s: int)
    requires 0 <= s < |subs|
    ensures var d := IntendedDescriptors(subs)[s];
      var vs := Flatten(VertexLists(subs));
      var xs := Flatten(IndexLists(subs));
      && 0 <= d.baseVertex <= d.baseVertex + d.vertexCount <= |vs|
      && vs[d.baseVertex..d.baseVertex + d.vertexCount] == subs[s].vertices
      && 0 <= d.firstVertex <= d.firstVertex + d.indexCount <= |xs|
      && xs[d.firstVertex..d.firstVertex + d.indexCount] == subs[s].indices
  {
    ListRangeInFlatten(VertexLists(subs), s);
    ListRangeInFlatten(IndexLists(subs), s);
  }

  /** With two or more submeshes, only slot 0 holds a descriptor, and it is the last submesh's. */
  lemma AsWrittenDescriptorsLoseSubmeshes<V, I>(subs: seq<Submesh<V, I>>)
    requires |subs| >= 2
    ensures 1 in IntendedDescriptors(subs) && 1 !in AsWrittenDescriptors(subs)
    ensures AsWrittenDescriptors(subs)[0] == IntendedDescriptors(subs)[|subs| - 1]
  {
  }

  /**
    Copies the concatenation of the lists into `dest` from position 0, one element at a time.
    When `dest` is too short, the copy stops with an IndexOutOfRangeException once it is full.
  */
  method CopyFlattened<X>(lists: seq<seq<X>>, dest: array<X>) returns (o: Outcome)
    modifies dest
    ensures o.Pass? <==> |Flatten(lists)| <= dest.Length
    ensures o.Fail? ==> o.error == IndexOutOfRange && dest[..] == Flatten(lists)[..dest.Length]
    ensures o.Pass? ==> dest[..|Flatten(lists)|] == Flatten(lists)
    ensures o.Pass? ==> dest[|Flatten(lists)|..] == old(dest[|Flatten(lists)|..])
  {
    var index := 0;
    var i := 0;
    while i < |lists|
      invariant 0 <= i <= |lists|
      invariant index == |Flatten(lists[..i])| <= dest.Length
      invariant dest[..index] == Flatten(lists[..i])
      invariant dest[index..] == old(dest[index..])
    {
      var list := lists[i];
      assert lists[..i + 1][..i] == lists[..i];
      var j := 0;
      while j < |list|
        invariant 0 <= j <= |list|
        invariant index == |Flatten(lists[..i])| + j <= dest.Length
        invariant dest[..index] == Flatten(lists[..i]) + list[..j]
        invariant dest[index..] == old(dest[index..])
      {
        if index >= dest.Length {
          FlattenPrefix(lists, i, j);
          return Fail(IndexOutOfRange);
        }
        dest[index] := list[j];
        assert list[..j + 1] == list[..j] + [list[j]];
        index := index + 1;
        j := j + 1;
      }
      assert list[..j] == list;
      i := i + 1;
    }
    assert lists[..i] == lists;
    o := Pass;
  }

  /** A copy stopped inside list `i` holds a prefix of the concatenation. */
  lemma FlattenPrefix<X>(lists: seq<seq<X>>, i: int, j: int)
    requires 0 <= i < |lists| && 0 <= j < |lists[i]|
    ensures |Flatten(lists[..i]) + lists[i][..j]| < |Flatten(lists)|
    ensures Flatten(lists[..i]) + lists[i][..j] == Flatten(lists)[..|Flatten(lists[..i])| + j]
  {
    assert lists == lists[..i + 1] + lists[i + 1..];
    FlattenAppend(lists[..i + 1], lists[i + 1..]);
    assert lists[..i + 1][..i] == lists[..i];
  }

  /** Sums the list lengths with a running count. */
  method SumLengths<X>(lists: seq<seq<X>>) returns (count: int)
    ensures count == Total(lists) == |Flatten(lists)|
  {
    count := 0;
    var i := 0;
    while i < |lists|
      invariant 0 <= i <= |lists|
      invariant count == Total(lists[..i])
    {
      assert lists[..i + 1][..i] == lists[..i];
      count := count + |lists[i]|;
      i := i + 1;
    }
    assert lists[..i] == lists;
    TotalIsFlattenLength(lists);
  }

  class NativeMesh<V, I> {
    /** The contents of the `SubmeshList` container list, submesh 0 first. */
    var submeshes: seq<Submesh<V, I>>
    /** The capacity the submesh list was created with. */
    const submeshCapacity: int
    const allocator: Allocator
    const indexType: IndexType
    /** Whether `Dispose` has released the submesh list and the safety handle. */
    var disposed: bool

    /** The allocation half of the constructor, once its argument checks have passed. */
    constructor Allocate(allocator: Allocator, indexType: IndexType)
      ensures submeshes == [] && submeshCapacity == 4 && !disposed
      ensures this.allocator == allocator && this.indexType == indexType
    {
      submeshes := [];
      submeshCapacity := 4;
      this.allocator := allocator;
      this.indexType := indexType;
      disposed := false;
    }

    /**
      `new NativeMesh<V, I>(allocator)`: an ArgumentException for an unusable allocator or an
      index type other than `uint` and `ushort`; otherwise a mesh with an empty submesh list of
      capacity 4.
    */
    static method Create(allocator: Allocator, indexType: IndexType) returns (r: Result<NativeMesh<V, I>>)
      ensures r.Ok? <==> UsableAllocator(allocator) && indexType != OtherIndexType
      ensures r.Err? ==> r.error == InvalidArgument
      ensures r.Ok? ==> fresh(r.value) && r.value.submeshes == [] && r.value.submeshCapacity == 4 && !r.value.disposed
    {
      if !UsableAllocator(allocator) {
        return Err(InvalidArgument);
      }
      if indexType != UInt32 && indexType != UInt16 {
        return Err(InvalidArgument);
      }
      var m := new NativeMesh.Allocate(allocator, indexType);
      return Ok(m);
    }

    /** The indexer `this[index]`: submesh `index` of the submesh list. */
    function Get(index: int): (r: Result<Submesh<V, I>>)
      reads this
      ensures r.Ok? <==> !disposed && 0 <= index < |submeshes|
      ensures r.Ok? ==> r.value == submeshes[index]
      ensures r.Err? ==> r.error == (if disposed then InvalidOperation else IndexOutOfRange)
    {
      if disposed then Err(InvalidOperation)
      else if index < 0 || index >= |submeshes| then Err(IndexOutOfRange)
      else Ok(submeshes[index])
    }

    /** `TotalVertexCount`: the number of vertices over all submeshes. */
    method TotalVertexCount() returns (r: Result<int>)
      ensures r.Ok? <==> !disposed
      ensures r.Err? ==> r.error == InvalidOperation
      ensures r.Ok? ==> r.value == Total(VertexLists(submeshes)) == |Flatten(VertexLists(submeshes))|
    {
      if disposed {
        return Err(InvalidOperation);
      }
      var n := SumLengths(VertexLists(submeshes));
      return Ok(n);
    }

    /** `TotalIndexCount`: the number of indices over all submeshes. */
    method TotalIndexCount() returns (r: Result<int>)
      ensures r.Ok? <==> !disposed
      ensures r.Err? ==> r.error == InvalidOperation
      ensures r.Ok? ==> r.value == Total(IndexLists(submeshes)) == |Flatten(IndexLists(submeshes))|
    {
      if disposed {
        return Err(InvalidOperation);
      }
      var n := SumLengths(IndexLists(submeshes));
      return Ok(n);
    }

    /** `GetAllVertices`: the submeshes' vertex lists, in submesh order, from position 0. */
    method GetAllVertices(vertices: array<V>) returns (o: Outcome)
      modifies vertices
      ensures disposed ==> o == Fail(InvalidOperation) && vertices[..] == old(vertices[..])
      ensures !disposed ==> (o.Pass? <==> Total(VertexLists(submeshes)) <= vertices.Length)
      ensures !disposed && o.Fail? ==> o.error == IndexOutOfRange
      ensures o.Pass? ==> vertices[..Total(VertexLists(submeshes))] == Flatten(VertexLists(submeshes))
      ensures o.Pass? ==> vertices[Total(VertexLists(submeshes))..] == old(vertices[Total(VertexLists(submeshes))..])
    {
      if disposed {
        return Fail(InvalidOperation);
      }
      TotalIsFlattenLength(VertexLists(submeshes));
      o := CopyFlattened(VertexLists(submeshes), vertices);
    }

    /** `GetAllIndices`: the submeshes' index lists, in submesh order, copied unchanged. */
    method GetAllIndices(indices: array<I>) returns (o: Outcome)
      modifies indices
      ensures disposed ==> o == Fail(InvalidOperation) && indices[..] == old(indices[..])
      ensures !disposed ==> (o.Pass? <==> Total(IndexLists(submeshes)) <= indices.Length)
      ensures !disposed && o.Fail? ==> o.error == IndexOutOfRange
      ensures o.Pass? ==> indices[..Total(IndexLists(submeshes))] == Flatten(IndexLists(submeshes))
      ensures o.Pass? ==> indices[Total(IndexLists(submeshes))..] == old(indices[Total(IndexLists(submeshes))..])
    {
      if disposed {
        return Fail(InvalidOperation);
      }
      TotalIsFlattenLength(IndexLists(submeshes));
      o := CopyFlattened(IndexLists(submeshes), indices);
    }

    /**
      `ApplyToMesh`, without the Unity calls: the concatenated buffers, the submesh count, and
      the submesh descriptors with offsets summed over the earlier submeshes. Descriptor `s`
      goes to slot `s`; the code writes every one to slot 0 (see `AsWrittenDescriptors`).
    */
    method ApplyToMesh(zeroVertex: V, zeroIndex: I) returns (r: Result<MeshData<V, I>>)
      ensures r.Ok? <==> !disposed
      ensures r.Err? ==> r.error == InvalidOperation
      ensures r.Ok? ==> r.value.vertices == Flatten(VertexLists(submeshes))
      ensures r.Ok? ==> r.value.indices == Flatten(IndexLists(submeshes))
      ensures r.Ok? ==> r.value.indexFormat == indexType && r.value.subMeshCount == |submeshes|
      ensures r.Ok? ==> r.value.descriptors == IntendedDescriptors(submeshes)
    {
      if disposed {
        return Err(InvalidOperation);
      }
      var vertexTotal := TotalVertexCount();
      var indexTotal := TotalIndexCount();
      var verts := new V[vertexTotal.value](_ => zeroVertex);
      var indis := new I[indexTotal.value](_ => zeroIndex);
      var ov := GetAllVertices(verts);
      assert verts[..] == verts[..vertexTotal.value];
      ghost var allVertices := verts[..];
      var oi := GetAllIndices(indis);
      assert indis[..] == indis[..indexTotal.value];
      assert verts[..] == allVertices;
      var descriptors := SetSubmeshDescriptors(submeshes);
      return Ok(MeshData(verts[..], indis[..], indexType, |submeshes|, descriptors));
    }

    /** `Dispose`: releases the submesh list; a second call is an InvalidOperationException. */
    method Dispose() returns (o: Outcome)
      modifies this
      ensures disposed && submeshes == old(submeshes)
      ensures o == (if old(disposed) then Fail(InvalidOperation) else Pass)
    {
      if disposed {
        return Fail(InvalidOperation);
      }
      disposed := true;
      return Pass;
    }
  }

  /**
    The offset loop of `ApplyToMesh`: running vertex and index offsets summed over the earlier
    submeshes, and each submesh's descriptor written to its own slot.
  */
  method SetSubmeshDescriptors<V, I>(subs: seq<Submesh<V, I>>) returns (descriptors: map<int, Descriptor>)
    ensures descriptors == IntendedDescriptors(subs)
  {
    descriptors := map[];
    var vertexOffset := 0;
    var indexOffset := 0;
    var s := 0;
    while s < |subs|
      invariant 0 <= s <= |subs|
      invariant vertexOffset == Total(VertexLists(subs)[..s])
      invariant indexOffset == Total(IndexLists(subs)[..s])
      invariant descriptors == IntendedDescriptors(subs[..s])
    {
      var submesh := subs[s];
      descriptors := descriptors[s := Descriptor(|submesh.indices|, vertexOffset, indexOffset, |submesh.vertices|)];
      assert VertexLists(subs)[..s + 1][..s] == VertexLists(subs)[..s];
      assert IndexLists(subs)[..s + 1][..s] == IndexLists(subs)[..s];
      IntendedDescriptorsSnoc(subs, s);
      vertexOffset := vertexOffset + |submesh.vertices|;
      indexOffset := indexOffset + |submesh.indices|;
      s := s + 1;
    }
    assert subs[..s] == subs;
  }

  /** Extending a prefix of the submeshes by one adds that submesh's descriptor in its slot and keeps the others. */
  lemma IntendedDescriptorsSnoc<V, I>(subs: seq<Submesh<V, I>>, s: int)
    requires 0 <= s < |subs|
    ensures IntendedDescriptors(subs[..s + 1]) == IntendedDescriptors(subs[..s])[s := DescriptorOf(subs, s)]
  {
    forall j | 0 <= j <= s
      ensures DescriptorOf(subs[..s + 1], j) == DescriptorOf(subs, j)
    {
      DescriptorOfPrefix(subs, s + 1, j);
    }
    forall j | 0 <= j < s
      ensures DescriptorOf(subs[..s], j) == DescriptorOf(subs, j)
    {
      DescriptorOfPrefix(subs, s, j);
    }
  }

  /** A prefix of the submeshes gives each of its submeshes the same descriptor as the whole list does. */
  lemma DescriptorOfPrefix<V, I>(subs: seq<Submesh<V, I>>, n: int, s: int)
    requires 0 <= s < n <= |subs|
    ensures DescriptorOf(subs[..n], s) == DescriptorOf(subs, s)
  {
    assert VertexLists(subs[..n])[..s] == VertexLists(subs)[..s];
    assert IndexLists(subs[..n])[..s] == IndexLists(subs)[..s];
  }
}
