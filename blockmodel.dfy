/**
  The baked form of one block model (Assets/BonesCubed/Common/Native/Unsafe/UnsafeBlockModel.cs):
  a list of segments, each holding its own vertex and 16-bit index lists and the occluding
  segment it belongs to, plus the flag set of faces the model covers.
*/
module BlockModels {
  import opened Wrappers
  import opened NativeUtils
  import Seg = OccludingSegments

  /** One stored segment; its indices refer to its own vertices. */
  datatype Segment<V> = Segment(vertices: seq<V>, indices: seq<int>, tag: Seg.Mask)

  /** The position of the first segment tagged `tag` at or after `from`, if any (see `FirstTaggedFromRule`). */
  function FirstTaggedFrom<V>(segments: seq<Segment<V>>, tag: Seg.Mask, from: nat): (r: Option<nat>)
    requires from <= |segments|
    ensures r.Some? ==> from <= r.value < |segments| && segments[r.value].tag == tag
    decreases |segments| - from
  {
    if from == |segments| then None
    else if segments[from].tag == tag then Some(from)
    else FirstTaggedFrom(segments, tag, from + 1)
  }

  /** Every segment at or after `from` with the tag is found, at or after the one returned. */
  lemma {:induction false} FirstTaggedFromRule<V>(segments: seq<Segment<V>>, tag: Seg.Mask, from: nat)
    requires from <= |segments|
    ensures forall j :: from <= j < |segments| && segments[j].tag == tag ==>
      FirstTaggedFrom(segments, tag, from).Some? && FirstTaggedFrom(segments, tag, from).value <= j
    decreases |segments| - from
  {
    if from < |segments| && segments[from].tag != tag {
      FirstTaggedFromRule(segments, tag, from + 1);
    }
  }

  /** The position of the first segment tagged `tag`, if any (see `FirstTaggedRule`). */
  function FirstTagged<V>(segments: seq<Segment<V>>, tag: Seg.Mask): (r: Option<nat>)
    ensures r.Some? ==> r.value < |segments| && segments[r.value].tag == tag
  {
    FirstTaggedFrom(segments, tag, 0)
  }

  /** No segment with the tag lies before the one found, and none at all when nothing is found. */
  lemma FirstTaggedRule<V>(segments: seq<Segment<V>>, tag: Seg.Mask)
    ensures forall j :: 0 <= j < |segments| && segments[j].tag == tag ==>
      FirstTagged(segments, tag).Some? && FirstTagged(segments, tag).value <= j
  {
    FirstTaggedFromRule(segments, tag, 0);
  }

  /**
    Appending a segment leaves every earlier lookup as it was, and makes a tag that had no
    segment yet find the new one.
  */
  lemma FirstTaggedAppend<V>(segments: seq<Segment<V>>, s: Segment<V>, tag: Seg.Mask)
    ensures FirstTagged(segments, tag).Some? ==> FirstTagged(segments + [s], tag) == FirstTagged(segments, tag)
    ensures FirstTagged(segments, tag).None? ==>
      FirstTagged(segments + [s], tag) == if s.tag == tag then Some(|segments|) else None
  {
    var longer := segments + [s];
    FirstTaggedRule(segments, tag);
    FirstTaggedRule(longer, tag);
    assert forall j :: 0 <= j < |segments| ==> longer[j] == segments[j];
    assert longer[|segments|] == s;
  }

  class UnsafeBlockModel<V> {
    /** The stored segments, in the order they were added. */
    var segments: seq<Segment<V>>
    /** `OccludingSegments`: the faces this model covers, fixed at construction. */
    const occludingSegments: Seg.Mask
    const allocator: Allocator
    /** `IsCreated`: whether the segment list is allocated. */
    var created: bool
    /** The segments whose lists `Dispose` has freed so far, in order. */
    var freed: seq<Segment<V>>

    /** A model with no segments that reports the given occluding segments. */
    constructor (occludingSegments: Seg.Mask, allocator: Allocator)
      ensures segments == [] && created && freed == []
      ensures this.occludingSegments == occludingSegments && this.allocator == allocator
    {
      segments := [];
      this.occludingSegments := occludingSegments;
      this.allocator := allocator;
      created := true;
      freed := [];
    }

    /** `AddSegment`: appends one segment holding copies of the given lists and tag. */
    method AddSegment(vertices: seq<V>, indices: seq<int>, tag: Seg.Mask)
      requires created
      modifies this
      ensures segments == old(segments) + [Segment(vertices, indices, tag)]
      ensures created && freed == old(freed)
    {
      segments := segments + [Segment(vertices, indices, tag)];
    }

    /**
      `GetSegment`: appends the lists of the first segment tagged `tag` to the caller's lists;
      with no such segment both lists come back as they were. The model does not change.
    */
    method GetSegment(vertices: seq<V>, indices: seq<int>, tag: Seg.Mask) returns (vs: seq<V>, ixs: seq<int>)
      ensures FirstTagged(segments, tag).None? ==> vs == vertices && ixs == indices
      ensures FirstTagged(segments, tag).Some? ==>
        var s := segments[FirstTagged(segments, tag).value];
        vs == vertices + s.vertices && ixs == indices + s.indices
    {
      vs, ixs := vertices, indices;
      var i := 0;
      while i < |segments|
        invariant 0 <= i <= |segments|
        invariant FirstTaggedFrom(segments, tag, i) == FirstTagged(segments, tag)
      {
        if segments[i].tag != tag {
          i := i + 1;
          continue;
        }
        vs := vs + segments[i].vertices;
        ixs := ixs + segments[i].indices;
        return;
      }
    }

    /** `Dispose`: frees every segment's lists in order, then the segment list itself. */
    method Dispose()
      modifies this
      ensures !created && segments == []
      ensures freed == old(freed) + old(segments)
    {
      var i := 0;
      while i < |segments|
        invariant 0 <= i <= |segments| && segments == old(segments)
        invariant freed == old(freed) + segments[..i]
      {
        freed := freed + [segments[i]];
        i := i + 1;
      }
      assert segments[..i] == segments;
      segments := [];
      created := false;
    }
  }
}

/**
  The job that bakes an imported mesh into an `UnsafeBlockModel`
  (Assets/BonesCubed/Common/Jobs/LoadBlockModel.cs): each triangle is tagged with the face of the
  unit cube it lies on, and the triangles of each tag, in bit order, become one segment with
  its own de-duplicated vertex list.

  Two floating-point tests are parameters: `onFace(v0, v1, v2, f)` says the triangle's normal
  and centroid put it on face `f` (the tolerance tests of `CalculateSegment`), and
  `same(a, b)` is the approximate vertex equality `VoxelVertex ==`.
*/
module BlockModelLoading {
  import opened Wrappers
  import opened IntMath
  import opened BlockModels
  import Seg = OccludingSegments
  import C = Coordinates
  import D = CoreDirections

  /** The imported mesh of one model: its vertices and the triangle list of submesh 0. */
  datatype SourceMesh<V> = SourceMesh(vertices: seq<V>, indices: seq<int>)

  /** A triangle list: whole triangles, each index naming a vertex. */
  predicate WellFormed<V>(m: SourceMesh<V>) {
    && |m.indices| % 3 == 0
    && forall i :: 0 <= i < |m.indices| ==> 0 <= m.indices[i] < |m.vertices|
  }

  function TriangleCount<V>(m: SourceMesh<V>): nat {
    |m.indices| / 3
  }

  /**
    `CalculateSegment`: the six face tests in the order North, East, South, West, Top, Bottom,
    each later match overriding an earlier one; Center when none matches.
  */
  function CalculateSegment<V>(onFace: (V, V, V, Seg.Mask) -> bool, v0: V, v1: V, v2: V): (r: Seg.Mask)
    ensures Seg.IsTag(r)
  {
    var s := Seg.Center;
    var s := if onFace(v0, v1, v2, Seg.North) then Seg.North else s;
    var s := if onFace(v0, v1, v2, Seg.East) then Seg.East else s;
    var s := if onFace(v0, v1, v2, Seg.South) then Seg.South else s;
    var s := if onFace(v0, v1, v2, Seg.West) then Seg.West else s;
    var s := if onFace(v0, v1, v2, Seg.Top) then Seg.Top else s;
    if onFace(v0, v1, v2, Seg.Bottom) then Seg.Bottom else s
  }

  /**
    The tag is Center exactly when no face test passes; otherwise its face test passes and no
    face later in the order passes.
  */
  lemma CalculateSegmentRule<V>(onFace: (V, V, V, Seg.Mask) -> bool, v0: V, v1: V, v2: V)
    ensures var r := CalculateSegment(onFace, v0, v1, v2);
      && (r == Seg.Center <==> forall f :: Seg.IsFace(f) ==> !onFace(v0, v1, v2, f))
      && (r != Seg.Center ==> onFace(v0, v1, v2, r))
      && (r != Seg.Center ==> forall f :: Seg.IsFace(f) && r < f ==> !onFace(v0, v1, v2, f))
  {
  }

  /**
    The outward normal that the face test for the k-th flag of North, East, South, West, Top,
    Bottom compares a triangle's normal with, as `CalculateSegment` is written: the face on the
    plane z = 1, facing +z, gets North and the face on z = 0 gets South.
  */
  function LoaderFaceNormal(k: int): (r: C.BlockPos)
    requires 0 <= k < 6
    ensures Abs(r.x) + Abs(r.y) + Abs(r.z) == 1
  {
    [C.BlockPos(0, 0, 1), C.BlockPos(1, 0, 0), C.BlockPos(0, 0, -1),
     C.BlockPos(-1, 0, 0), C.BlockPos(0, 1, 0), C.BlockPos(0, -1, 0)][k]
  }

  /** The normals the occlusion rule needs: the face with the k-th flag faces direction k. */
  function IntendedFaceNormal(k: int): (r: C.BlockPos)
    requires 0 <= k < 6
    ensures Abs(r.x) + Abs(r.y) + Abs(r.z) == 1
  {
    [C.BlockPos(0, 0, -1), C.BlockPos(1, 0, 0), C.BlockPos(0, 0, 1),
     C.BlockPos(-1, 0, 0), C.BlockPos(0, 1, 0), C.BlockPos(0, -1, 0)][k]
  }

  /**
    As written, the z faces are swapped against the direction table. North is -z, yet the face
    tagged North faces +z. So the neighbour toward North, which touches the voxel with its +z
    face, tags that face North, while occlusion asks whether it covers its South face, the one
    on its far side; the same holds for South. The x and y faces agree with the table.
  */
  lemma AsWrittenZFacesSwapped()
    ensures LoaderFaceNormal(0) == C.BlockPos(0, 0, 1) && D.North.vector == C.BlockPos(0, 0, -1)
    ensures var n := D.North.vector;
      LoaderFaceNormal(D.Opposite(D.North).index) != C.BlockPos(-n.x, -n.y, -n.z)
    ensures var s := D.South.vector;
      LoaderFaceNormal(D.Opposite(D.South).index) != C.BlockPos(-s.x, -s.y, -s.z)
    ensures forall k :: 0 <= k < 6 && k != 0 && k != 2 ==> LoaderFaceNormal(k) == D.Named[k].vector
  {
    assert D.Opposite(D.North) == D.South;
    assert D.Opposite(D.South) == D.North;
  }

  /**
    With the intended normals the face with the k-th flag faces direction k, and the face of
    the neighbour toward k that occlusion asks about, the one with the opposite flag, is the face
    touching the voxel: it faces back along -k.
  */
  lemma IntendedFaceNormals(k: int)
    requires 0 <= k < 6
    ensures IntendedFaceNormal(k) == D.Named[k].vector
    ensures var v := D.Named[k].vector;
      IntendedFaceNormal(D.Opposite(D.Named[k]).index) == C.BlockPos(-v.x, -v.y, -v.z)
  {
    if k == 0 { assert D.Opposite(D.North) == D.South; }
    else if k == 1 { assert D.Opposite(D.East) == D.West; }
    else if k == 2 { assert D.Opposite(D.South) == D.North; }
    else if k == 3 { assert D.Opposite(D.West) == D.East; }
    else if k == 4 { assert D.Opposite(D.Up) == D.Down; }
    else { assert D.Opposite(D.Down) == D.Up; }
  }

  /** The three vertices of triangle `t`: `voxelVerts[indices[t * 3 + k]]` for k = 0, 1, 2. */
  function TriangleVertices<V>(m: SourceMesh<V>, t: int): (r: seq<V>)
    requires WellFormed(m) && 0 <= t < TriangleCount(m)
    ensures |r| == 3
  {
    [m.vertices[m.indices[3 * t]], m.vertices[m.indices[3 * t + 1]], m.vertices[m.indices[3 * t + 2]]]
  }

  /** The tag of triangle t. */
  function TriangleTag<V>(m: SourceMesh<V>, onFace: (V, V, V, Seg.Mask) -> bool, t: int): Seg.Mask
    requires WellFormed(m) && 0 <= t < TriangleCount(m)
  {
    var tri := TriangleVertices(m, t);
    CalculateSegment(onFace, tri[0], tri[1], tri[2])
  }

  /** The tags of the first n triangles, in triangle order. */
  function TagsUpTo<V>(m: SourceMesh<V>, onFace: (V, V, V, Seg.Mask) -> bool, n: nat): (r: seq<Seg.Mask>)
    requires WellFormed(m) && n <= TriangleCount(m)
    ensures |r| == n
    ensures forall t :: 0 <= t < n ==> Seg.IsTag(r[t])
  {
    if n == 0 then [] else TagsUpTo(m, onFace, n - 1) + [TriangleTag(m, onFace, n - 1)]
  }

  /** The tag of every triangle, in triangle order (`segmentIndicators`). */
  function TriangleTags<V>(m: SourceMesh<V>, onFace: (V, V, V, Seg.Mask) -> bool): (r: seq<Seg.Mask>)
    requires WellFormed(m)
    ensures |r| == TriangleCount(m)
    ensures forall t :: 0 <= t < |r| ==> Seg.IsTag(r[t])
  {
    TagsUpTo(m, onFace, TriangleCount(m))
  }

  /** Entry t of the tag list is the tag `CalculateSegment` gives triangle t. */
  lemma {:induction false} TriangleTagsEntry<V>(m: SourceMesh<V>, onFace: (V, V, V, Seg.Mask) -> bool, n: nat, t: nat)
    requires WellFormed(m) && t < n <= TriangleCount(m)
    ensures TagsUpTo(m, onFace, n)[t] == TriangleTag(m, onFace, t)
  {
    if t < n - 1 {
      TriangleTagsEntry(m, onFace, n - 1, t);
    }
  }

  /** The bitwise OR of a list of flag sets (`usedSegments`). */
  function UnionOf(tags: seq<Seg.Mask>): Seg.Mask {
    if |tags| == 0 then Seg.NoSegment else UnionOf(tags[..|tags| - 1]) | tags[|tags| - 1]
  }

  /** Over a list of tags the union holds a tag's bit exactly when the tag occurs, and no bit outside `Everything`. */
  lemma {:induction false} UnionOfTags(tags: seq<Seg.Mask>, b: Seg.Mask)
    requires forall t :: 0 <= t < |tags| ==> Seg.IsTag(tags[t])
    requires Seg.IsTag(b)
    ensures UnionOf(tags) & b != 0 <==> exists t :: 0 <= t < |tags| && tags[t] == b
    ensures Seg.InEverything(UnionOf(tags))
  {
    if |tags| > 0 {
      var init := tags[..|tags| - 1];
      UnionOfTags(init, b);
      Seg.TagsDisjoint(tags[|tags| - 1], b);
      if exists t :: 0 <= t < |init| && init[t] == b {
        var t :| 0 <= t < |init| && init[t] == b;
        assert tags[t] == b;
      }
      if exists t :: 0 <= t < |tags| && tags[t] == b {
        var t :| 0 <= t < |tags| && tags[t] == b;
        if t < |init| {
          assert init[t] == b;
        }
      }
    }
  }

  /** How many of the first `n` triangles carry `tag`. */
  function TaggedCount(tags: seq<Seg.Mask>, tag: Seg.Mask, n: nat): nat
    requires n <= |tags|
  {
    if n == 0 then 0 else TaggedCount(tags, tag, n - 1) + (if tags[n - 1] == tag then 1 else 0)
  }

  /** The vertices of the first `n` triangles tagged `tag`, three per triangle, in triangle order. */
  function SegmentStream<V>(m: SourceMesh<V>, tags: seq<Seg.Mask>, tag: Seg.Mask, n: nat): (r: seq<V>)
    requires WellFormed(m) && |tags| == TriangleCount(m) && n <= |tags|
    ensures |r| == 3 * TaggedCount(tags, tag, n)
  {
    if n == 0 then []
    else SegmentStream(m, tags, tag, n - 1) + (if tags[n - 1] == tag then TriangleVertices(m, n - 1) else [])
  }

  /** The scratch lists `segmentVerts` and `segmentIndis`. */
  datatype Scratch<V> = Scratch(vertices: seq<V>, indices: seq<int>)

  /** The position of the last vertex of `list` that `same` matches with `v`, or -1. */
  function LastMatch<V>(list: seq<V>, v: V, same: (V, V) -> bool): (r: int)
    ensures -1 <= r < |list|
    ensures r >= 0 ==> same(list[r], v) && forall j :: r < j < |list| ==> !same(list[j], v)
    ensures r == -1 ==> forall j :: 0 <= j < |list| ==> !same(list[j], v)
  {
    if |list| == 0 then -1
    else if same(list[|list| - 1], v) then |list| - 1
    else LastMatch(list[..|list| - 1], v, same)
  }

  /** The effect of `AppendIndex` (see `AppendedRule`). */
  function Appended<V>(s: Scratch<V>, v: V, same: (V, V) -> bool): Scratch<V> {
    var index := LastMatch(s.vertices, v, same);
    if index < 0 then Scratch(s.vertices + [v], s.indices + [ToUShort(|s.vertices|)])
    else Scratch(s.vertices, s.indices + [ToUShort(index)])
  }

  /**
    `AppendIndex` appends one index, naming the last matching vertex, or appends a new vertex
    when nothing matches; what was there stays. The index is cast to 16 bits, so it names the
    vertex only while the list has at most 65536 entries.
  */
  lemma AppendedRule<V>(s: Scratch<V>, v: V, same: (V, V) -> bool)
    ensures var r := Appended(s, v, same);
      && |r.indices| == |s.indices| + 1 && r.indices[..|s.indices|] == s.indices
      && |s.vertices| <= |r.vertices| <= |s.vertices| + 1 && r.vertices[..|s.vertices|] == s.vertices
      && (|r.vertices| == |s.vertices| + 1 <==> LastMatch(s.vertices, v, same) == -1)
      && 0 <= r.indices[|s.indices|] < 65536
      && (|r.vertices| <= 65536 ==>
            var k := r.indices[|s.indices|]; k < |r.vertices| && (r.vertices[k] == v || same(r.vertices[k], v)))
  {
  }

  /** The scratch lists after appending a whole stream of vertices to empty lists. */
  function Dedup<V>(stream: seq<V>, same: (V, V) -> bool): (r: Scratch<V>)
    ensures |r.indices| == |stream| && |r.vertices| <= |stream|
  {
    if |stream| == 0 then Scratch([], [])
    else
      var p := Dedup(stream[..|stream| - 1], same);
      AppendedRule(p, stream[|stream| - 1], same);
      Appended(p, stream[|stream| - 1], same)
  }

  lemma DedupSnoc<V>(stream: seq<V>, v: V, same: (V, V) -> bool)
    ensures Dedup(stream + [v], same) == Appended(Dedup(stream, same), v, same)
  {
    assert (stream + [v])[..|stream|] == stream;
  }

  /** Streaming a triangle's three vertices is three appends. */
  lemma DedupTriangle<V>(stream: seq<V>, tri: seq<V>, same: (V, V) -> bool)
    requires |tri| == 3
    ensures Dedup(stream + tri, same) == Appended(Appended(Appended(Dedup(stream, same), tri[0], same), tri[1], same), tri[2], same)
  {
    var s1 := stream + [tri[0]];
    var s2 := s1 + [tri[1]];
    assert s2 + [tri[2]] == stream + tri;
    calc {
      Dedup(stream + tri, same);
      Dedup(s2 + [tri[2]], same);
      { DedupSnoc(s2, tri[2], same); }
      Appended(Dedup(s2, same), tri[2], same);
      { DedupSnoc(s1, tri[1], same); }
      Appended(Appended(Dedup(s1, same), tri[1], same), tri[2], same);
      { DedupSnoc(stream, tri[0], same); }
      Appended(Appended(Appended(Dedup(stream, same), tri[0], same), tri[1], same), tri[2], same);
    }
  }

  /**
    While a segment has at most 65536 vertices, every index of its list names a vertex that is
    the streamed vertex itself or matches it.
  */
  lemma {:induction false} DedupRefers<V>(stream: seq<V>, same: (V, V) -> bool, d: Scratch<V>)
    requires |stream| <= 65536 && d == Dedup(stream, same)
    ensures forall i :: 0 <= i < |stream| ==>
        0 <= d.indices[i] < |d.vertices| && (d.vertices[d.indices[i]] == stream[i] || same(d.vertices[d.indices[i]], stream[i]))
  {
    if |stream| > 0 {
      var init := stream[..|stream| - 1];
      var p := Dedup(init, same);
      DedupRefers(init, same, p);
      AppendedRule(p, stream[|stream| - 1], same);
      forall i | 0 <= i < |stream|
        ensures 0 <= d.indices[i] < |d.vertices|
        ensures d.vertices[d.indices[i]] == stream[i] || same(d.vertices[d.indices[i]], stream[i])
      {
        if i < |init| {
          assert d.indices[i] == d.indices[..|p.indices|][i] == p.indices[i];
          assert d.vertices[p.indices[i]] == d.vertices[..|p.vertices|][p.indices[i]] == p.vertices[p.indices[i]];
          assert stream[i] == init[i];
        }
      }
    }
  }

  /** The segment `Execute` builds for flag `tag`: its triangles' vertices, de-duplicated from empty lists. */
  function BuiltSegment<V>(m: SourceMesh<V>, tags: seq<Seg.Mask>, tag: Seg.Mask, same: (V, V) -> bool): (r: Segment<V>)
    requires WellFormed(m) && |tags| == TriangleCount(m)
    ensures r.tag == tag
    ensures |r.indices| == 3 * TaggedCount(tags, tag, |tags|) && |r.vertices| <= |r.indices|
  {
    var d := Dedup(SegmentStream(m, tags, tag, |tags|), same);
    Segment(d.vertices, d.indices, tag)
  }

  /** The segment builder of one mesh: flag to the segment built from that flag's triangles. */
  function Builder<V>(m: SourceMesh<V>, tags: seq<Seg.Mask>, same: (V, V) -> bool): (r: Seg.Mask -> Segment<V>)
    requires WellFormed(m) && |tags| == TriangleCount(m)
    ensures KeepsTag(r)
  {
    tag => BuiltSegment(m, tags, tag, same)
  }

  /** A builder that labels each segment with the flag it was built for. */
  ghost predicate KeepsTag<V>(build: Seg.Mask -> Segment<V>) {
    forall t :: build(t).tag == t
  }

  /**
    The segments the flag loop adds for the flags `TagBit(0)` .. `TagBit(k - 1)`: one from
    `build` for each flag that `used` holds.
  */
  function SegmentsUpTo<V>(used: Seg.Mask, build: Seg.Mask -> Segment<V>, k: nat): seq<Segment<V>>
    requires k <= 7
  {
    if k == 0 then []
    else
      var tag := Seg.TagBit(k - 1);
      SegmentsUpTo(used, build, k - 1) + (if tag & used == 0 then [] else [build(tag)])
  }

  /** Every segment `Execute` adds to the model of mesh `m`. */
  function LoadedSegments<V>(m: SourceMesh<V>, onFace: (V, V, V, Seg.Mask) -> bool, same: (V, V) -> bool): seq<Segment<V>>
    requires WellFormed(m)
  {
    var tags := TriangleTags(m, onFace);
    SegmentsUpTo(UnionOf(tags), Builder(m, tags, same), Seg.TagCount)
  }

  /** `GetVertexIndex`: scans the list from the back. */
  method GetVertexIndex<V>(list: seq<V>, vertex: V, same: (V, V) -> bool) returns (r: int)
    ensures r == LastMatch(list, vertex, same)
  {
    var i := |list| - 1;
    while i >= 0
      invariant -1 <= i < |list|
      invariant forall j :: i < j < |list| ==> !same(list[j], vertex)
    {
      if same(list[i], vertex) {
        return i;
      }
      i := i - 1;
    }
    return -1;
  }

  /** `AppendIndex`: appends the vertex's index, adding the vertex first when no match exists. */
  method AppendIndex<V>(vertices: seq<V>, indices: seq<int>, vertex: V, same: (V, V) -> bool)
    returns (vs: seq<V>, ixs: seq<int>)
    ensures Scratch(vs, ixs) == Appended(Scratch(vertices, indices), vertex, same)
  {
    var index := GetVertexIndex(vertices, vertex, same);
    vs := vertices;
    if index < 0 {
      vs := vs + [vertex];
      index := |vs| - 1;
    }
    ixs := indices + [ToUShort(index)];
  }

  /** A triangle with another tag adds nothing to the stream. */
  lemma SegmentStreamSkip<V>(m: SourceMesh<V>, tags: seq<Seg.Mask>, tag: Seg.Mask, n: nat)
    requires WellFormed(m) && |tags| == TriangleCount(m) && n < |tags| && tags[n] != tag
    ensures SegmentStream(m, tags, tag, n + 1) == SegmentStream(m, tags, tag, n)
  {
    assert SegmentStream(m, tags, tag, n) + [] == SegmentStream(m, tags, tag, n);
  }

  /** A triangle with the tag adds its three vertices to the stream. */
  lemma SegmentStreamTake<V>(m: SourceMesh<V>, tags: seq<Seg.Mask>, tag: Seg.Mask, n: nat)
    requires WellFormed(m) && |tags| == TriangleCount(m) && n < |tags| && tags[n] == tag
    ensures SegmentStream(m, tags, tag, n + 1) == SegmentStream(m, tags, tag, n) + TriangleVertices(m, n)
  {
  }

  /** Triangle t's three indices lie inside the index list and name vertices. */
  lemma TriangleInside<V>(m: SourceMesh<V>, t: nat)
    requires WellFormed(m) && (3 * t < |m.indices| || t < TriangleCount(m))
    ensures t < TriangleCount(m) && t * 3 + 2 < |m.indices|
    ensures 0 <= m.indices[t * 3 + 0] < |m.vertices| && 0 <= m.indices[t * 3 + 1] < |m.vertices|
    ensures 0 <= m.indices[t * 3 + 2] < |m.vertices|
  {
  }

  /** The three `AppendIndex` calls for one triangle. */
  method AppendTriangle<V>(vs: seq<V>, ixs: seq<int>, v0: V, v1: V, v2: V, same: (V, V) -> bool, ghost stream: seq<V>)
    returns (vs': seq<V>, ixs': seq<int>)
    requires Scratch(vs, ixs) == Dedup(stream, same)
    ensures Scratch(vs', ixs') == Dedup(stream + [v0, v1, v2], same)
  {
    ghost var start := Scratch(vs, ixs);
    vs', ixs' := AppendIndex(vs, ixs, v0, same);
    vs', ixs' := AppendIndex(vs', ixs', v1, same);
    vs', ixs' := AppendIndex(vs', ixs', v2, same);
    DedupTriangle(stream, [v0, v1, v2], same);
  }

  /** The body of the inner loop for a triangle that carries the tag: its three vertices are appended. */
  method TakeTriangle<V>(m: SourceMesh<V>, indicators: seq<Seg.Mask>, tag: Seg.Mask, same: (V, V) -> bool, j: nat,
                         vs: seq<V>, ixs: seq<int>) returns (vs': seq<V>, ixs': seq<int>)
    requires WellFormed(m) && |indicators| == TriangleCount(m) && j < |indicators| && indicators[j] == tag
    requires Scratch(vs, ixs) == Dedup(SegmentStream(m, indicators, tag, j), same)
    ensures Scratch(vs', ixs') == Dedup(SegmentStream(m, indicators, tag, j + 1), same)
  {
    var tri := TriangleVertices(m, j);
    var v0, v1, v2 := tri[0], tri[1], tri[2];
    SegmentStreamTake(m, indicators, tag, j);
    vs', ixs' := AppendTriangle(vs, ixs, v0, v1, v2, same, SegmentStream(m, indicators, tag, j));
  }

  /** One pass of the inner loop: triangle j's vertices are appended when it carries the tag. */
  method VisitTriangle<V>(m: SourceMesh<V>, indicators: seq<Seg.Mask>, tag: Seg.Mask, same: (V, V) -> bool, j: nat,
                          vs: seq<V>, ixs: seq<int>) returns (vs': seq<V>, ixs': seq<int>)
    requires WellFormed(m) && |indicators| == TriangleCount(m) && j < |indicators|
    requires Scratch(vs, ixs) == Dedup(SegmentStream(m, indicators, tag, j), same)
    ensures Scratch(vs', ixs') == Dedup(SegmentStream(m, indicators, tag, j + 1), same)
  {
    if indicators[j] == tag {
      vs', ixs' := TakeTriangle(m, indicators, tag, same, j, vs, ixs);
    } else {
      SegmentStreamSkip(m, indicators, tag, j);
      vs', ixs' := vs, ixs;
    }
  }

  /** The inner loop of `Execute` for one flag: every triangle tagged `tag`, in order, into fresh scratch lists. */
  method BuildSegment<V>(m: SourceMesh<V>, indicators: seq<Seg.Mask>, tag: Seg.Mask, same: (V, V) -> bool)
    returns (vs: seq<V>, ixs: seq<int>)
    requires WellFormed(m) && |indicators| == TriangleCount(m)
    ensures Scratch(vs, ixs) == Dedup(SegmentStream(m, indicators, tag, |indicators|), same)
  {
    vs, ixs := [], [];
    var j := 0;
    while j < |indicators|
      invariant 0 <= j <= |indicators|
      invariant Scratch(vs, ixs) == Dedup(SegmentStream(m, indicators, tag, j), same)
    {
      vs, ixs := VisitTriangle(m, indicators, tag, same, j, vs, ixs);
      j := j + 1;
    }
  }

  /** The union after one more tag. */
  lemma UnionOfSnoc(tags: seq<Seg.Mask>, t: Seg.Mask)
    ensures UnionOf(tags + [t]) == UnionOf(tags) | t
  {
    assert (tags + [t])[..|tags|] == tags;
  }

  /** The tag loop of `Execute`: the tag of each triangle and their union. */
  method TagTriangles<V>(m: SourceMesh<V>, onFace: (V, V, V, Seg.Mask) -> bool) returns (indicators: seq<Seg.Mask>, used: Seg.Mask)
    requires WellFormed(m)
    ensures indicators == TriangleTags(m, onFace) && used == UnionOf(indicators)
  {
    indicators, used := [], Seg.NoSegment;
    var i := 0;
    ghost var t := 0;
    while i < |m.indices|
      invariant i == 3 * t && 0 <= t <= TriangleCount(m) && i <= |m.indices|
      invariant indicators == TagsUpTo(m, onFace, t) && used == UnionOf(indicators)
    {
      TriangleInside(m, t);
      assert i / 3 == t;
      var tri := TriangleVertices(m, i / 3);
      var segment := CalculateSegment(onFace, tri[0], tri[1], tri[2]);
      UnionOfSnoc(indicators, segment);
      indicators := indicators + [segment];
      used := used | segment;
      i := i + 3;
      t := t + 1;
    }
    assert t == TriangleCount(m);
  }

  /** The segments of the first k + 1 flag steps: flag k adds its segment when some triangle uses it. */
  lemma SegmentsUpToStep<V>(used: Seg.Mask, build: Seg.Mask -> Segment<V>, k: nat)
    requires k < 7
    ensures SegmentsUpTo(used, build, k + 1) == SegmentsUpTo(used, build, k) +
      (if Seg.TagBit(k) & used == 0 then [] else [build(Seg.TagBit(k))])
  {
  }

  /**
    One pass of the flag loop, for flag `TagBit(k)`: the flag's segment is added when the flag
    is used, so the model then holds the segments of the first k + 1 flags.
  */
  method AddFlagSegment<V>(model: UnsafeBlockModel<V>, mesh: SourceMesh<V>, indicators: seq<Seg.Mask>, used: Seg.Mask,
                           segment: Seg.Mask, same: (V, V) -> bool,
                           ghost build: Seg.Mask -> Segment<V>, ghost k: nat, ghost before: seq<Segment<V>>)
    requires WellFormed(mesh) && |indicators| == TriangleCount(mesh) && model.created
    requires build == Builder(mesh, indicators, same) && k < 7 && segment == Seg.TagBit(k)
    requires model.segments == before + SegmentsUpTo(used, build, k)
    modifies model
    ensures model.segments == before + SegmentsUpTo(used, build, k + 1)
    ensures model.created && model.freed == old(model.freed)
  {
    SegmentsUpToStep(used, build, k);
    if segment & used != 0 {
      var vs, ixs := BuildSegment(mesh, indicators, segment, same);
      assert build(segment) == Segment(vs, ixs, segment);
      model.AddSegment(vs, ixs, segment);
    }
  }

  /** The flag loop of `Execute`: for each used flag in bit order 1, 2, .., 64, one segment built from that flag's triangles. */
  method AddSegments<V>(model: UnsafeBlockModel<V>, mesh: SourceMesh<V>, indicators: seq<Seg.Mask>, used: Seg.Mask, same: (V, V) -> bool)
    requires WellFormed(mesh) && |indicators| == TriangleCount(mesh) && model.created
    modifies model
    ensures model.segments == old(model.segments) + SegmentsUpTo(used, Builder(mesh, indicators, same), Seg.TagCount)
    ensures model.created && model.freed == old(model.freed)
  {
    ghost var build := Builder(mesh, indicators, same);
    var segment: Seg.Mask := 1;
    ghost var k := 0;
    while segment < Seg.Everything
      invariant k <= 7 && segment == Seg.TagBit(k) && (k < 7 <==> segment < Seg.Everything)
      invariant model.segments == old(model.segments) + SegmentsUpTo(used, build, k)
      invariant model.created && model.freed == old(model.freed)
      decreases 7 - k
    {
      AddFlagSegment(model, mesh, indicators, used, segment, same, build, k, old(model.segments));
      Seg.TagBitOrder(k);
      segment := segment << 1;
      k := k + 1;
    }
  }

  /**
    `Execute(modelIndex)`: tags every triangle of mesh `modelIndex`, then for each used flag in
    bit order 1, 2, .., 64 adds one segment built from that flag's triangles to the model.
  */
  method Execute<V>(meshes: seq<SourceMesh<V>>, models: seq<UnsafeBlockModel<V>>, modelIndex: int,
                    onFace: (V, V, V, Seg.Mask) -> bool, same: (V, V) -> bool)
    requires 0 <= modelIndex < |meshes| && modelIndex < |models|
    requires WellFormed(meshes[modelIndex]) && models[modelIndex].created
    modifies models[modelIndex]
    ensures models[modelIndex].segments == old(models[modelIndex].segments) + LoadedSegments(meshes[modelIndex], onFace, same)
    ensures models[modelIndex].created && models[modelIndex].freed == old(models[modelIndex].freed)
  {
    var mesh := meshes[modelIndex];
    var indicators, used := TagTriangles(mesh, onFace);
    var model := models[modelIndex];
    AddSegments(model, mesh, indicators, used, same);
  }

  /** `Execute` adds segments only for tags that some triangle carries. */
  lemma LoadedSegmentsSound<V>(m: SourceMesh<V>, onFace: (V, V, V, Seg.Mask) -> bool, same: (V, V) -> bool,
                               segs: seq<Segment<V>>, tags: seq<Seg.Mask>)
    requires WellFormed(m) && segs == LoadedSegments(m, onFace, same) && tags == TriangleTags(m, onFace)
    ensures forall i :: 0 <= i < |segs| ==> Seg.IsTag(segs[i].tag) && exists t :: 0 <= t < |tags| && tags[t] == segs[i].tag
  {
    FlagLoopSound(tags, Builder(m, tags, same), segs);
  }

  /** `Execute` adds a segment for every tag that some triangle carries. */
  lemma LoadedSegmentsComplete<V>(m: SourceMesh<V>, onFace: (V, V, V, Seg.Mask) -> bool, same: (V, V) -> bool,
                                  segs: seq<Segment<V>>, tags: seq<Seg.Mask>)
    requires WellFormed(m) && segs == LoadedSegments(m, onFace, same) && tags == TriangleTags(m, onFace)
    ensures forall t :: 0 <= t < |tags| ==> exists i :: 0 <= i < |segs| && segs[i].tag == tags[t]
  {
    FlagLoopComplete(tags, Builder(m, tags, same), segs);
  }

  /** `Execute` adds the segments in increasing bit order of their tags. */
  lemma LoadedSegmentsIncreasing<V>(m: SourceMesh<V>, onFace: (V, V, V, Seg.Mask) -> bool, same: (V, V) -> bool,
                                    segs: seq<Segment<V>>)
    requires WellFormed(m) && segs == LoadedSegments(m, onFace, same)
    ensures forall i, j :: 0 <= i < j < |segs| ==> TagPrecedes(segs[i], segs[j])
  {
    var tags := TriangleTags(m, onFace);
    SegmentsUpToIncreasing(UnionOf(tags), Builder(m, tags, same), Seg.TagCount, segs);
  }

  /** Over any tags and any builder that keeps tags, the flag loop adds only tags that occur. */
  lemma FlagLoopSound<V>(tags: seq<Seg.Mask>, build: Seg.Mask -> Segment<V>, segs: seq<Segment<V>>)
    requires forall t :: 0 <= t < |tags| ==> Seg.IsTag(tags[t])
    requires KeepsTag(build) && segs == SegmentsUpTo(UnionOf(tags), build, Seg.TagCount)
    ensures forall i :: 0 <= i < |segs| ==> Seg.IsTag(segs[i].tag) && exists t :: 0 <= t < |tags| && tags[t] == segs[i].tag
  {
    SegmentsUpToBuilt(UnionOf(tags), build, Seg.TagCount, segs);
    forall i | 0 <= i < |segs|
      ensures exists t :: 0 <= t < |tags| && tags[t] == segs[i].tag
    {
      UnionOfTags(tags, segs[i].tag);
    }
  }

  /** Over any tags and any builder that keeps tags, the flag loop adds every tag that occurs. */
  lemma FlagLoopComplete<V>(tags: seq<Seg.Mask>, build: Seg.Mask -> Segment<V>, segs: seq<Segment<V>>)
    requires forall t :: 0 <= t < |tags| ==> Seg.IsTag(tags[t])
    requires KeepsTag(build) && segs == SegmentsUpTo(UnionOf(tags), build, Seg.TagCount)
    ensures forall t :: 0 <= t < |tags| ==> exists i :: 0 <= i < |segs| && segs[i].tag == tags[t]
  {
    SegmentsUpToComplete(UnionOf(tags), build, Seg.TagCount, segs);
    forall t | 0 <= t < |tags|
      ensures exists i :: 0 <= i < |segs| && segs[i].tag == tags[t]
    {
      UnionOfTags(tags, tags[t]);
      Seg.TagIsTagBit(tags[t]);
    }
  }

  /**
    What each added segment holds: three indices per triangle of its tag, no more vertices than
    indices, and (below 65536 vertices) every index naming the streamed vertex or a match of it.
  */
  lemma LoadedSegmentContents<V>(m: SourceMesh<V>, onFace: (V, V, V, Seg.Mask) -> bool, same: (V, V) -> bool,
                                 segs: seq<Segment<V>>, tags: seq<Seg.Mask>, i: int)
    requires WellFormed(m) && segs == LoadedSegments(m, onFace, same) && tags == TriangleTags(m, onFace)
    requires 0 <= i < |segs|
    ensures |segs[i].indices| == 3 * TaggedCount(tags, segs[i].tag, |tags|) && |segs[i].vertices| <= |segs[i].indices|
    ensures |segs[i].indices| <= 65536 ==>
      var stream := SegmentStream(m, tags, segs[i].tag, |tags|);
      forall n :: 0 <= n < |stream| ==>
        0 <= segs[i].indices[n] < |segs[i].vertices| &&
        (segs[i].vertices[segs[i].indices[n]] == stream[n] || same(segs[i].vertices[segs[i].indices[n]], stream[n]))
  {
    SegmentsUpToFromBuild(UnionOf(tags), Builder(m, tags, same), Seg.TagCount, segs);
    var stream := SegmentStream(m, tags, segs[i].tag, |tags|);
    if |segs[i].indices| <= 65536 {
      DedupRefers(stream, same, Dedup(stream, same));
    }
  }

  /** `a` comes first in bit order. */
  predicate TagPrecedes<V>(a: Segment<V>, b: Segment<V>) {
    a.tag < b.tag
  }

  /** A tag that `used` holds and that lies below `bound`. */
  predicate UsedTagBelow(t: Seg.Mask, used: Seg.Mask, bound: Seg.Mask) {
    Seg.IsTag(t) && t & used != 0 && t < bound
  }

  lemma UsedTagRaise(t: Seg.Mask, used: Seg.Mask, bound: Seg.Mask, higher: Seg.Mask)
    requires UsedTagBelow(t, used, bound) && bound < higher
    ensures UsedTagBelow(t, used, higher)
  {
  }

  /** Appending a used tag at `bound` to segments whose used tags lie below `bound` keeps them below any higher bound. */
  lemma UsedTagsBelowSnoc<V>(prev: seq<Segment<V>>, last: Segment<V>, used: Seg.Mask, bound: Seg.Mask, higher: Seg.Mask)
    requires forall i :: 0 <= i < |prev| ==> UsedTagBelow(prev[i].tag, used, bound)
    requires UsedTagBelow(last.tag, used, higher) && bound < higher
    ensures forall i :: 0 <= i < |prev + [last]| ==> UsedTagBelow((prev + [last])[i].tag, used, higher)
  {
    forall i | 0 <= i < |prev + [last]|
      ensures UsedTagBelow((prev + [last])[i].tag, used, higher)
    {
      if i < |prev| {
        UsedTagRaise(prev[i].tag, used, bound, higher);
      }
    }
  }

  /** The first k flag steps add only used tags below `TagBit(k)`. */
  lemma {:induction false} SegmentsUpToBuilt<V>(used: Seg.Mask, build: Seg.Mask -> Segment<V>, k: nat, segs: seq<Segment<V>>)
    requires KeepsTag(build) && k <= 7 && segs == SegmentsUpTo(used, build, k)
    ensures forall i :: 0 <= i < |segs| ==> UsedTagBelow(segs[i].tag, used, Seg.TagBit(k))
  {
    if k > 0 {
      var prev := SegmentsUpTo(used, build, k - 1);
      SegmentsUpToBuilt(used, build, k - 1, prev);
      Seg.TagBitOrder(k - 1);
      var tag := Seg.TagBit(k - 1);
      if tag & used == 0 {
        forall i | 0 <= i < |prev| ensures UsedTagBelow(prev[i].tag, used, Seg.TagBit(k)) {
          UsedTagRaise(prev[i].tag, used, tag, Seg.TagBit(k));
        }
        assert segs == prev;
      } else {
        assert segs == prev + [build(tag)];
        assert UsedTagBelow(build(tag).tag, used, Seg.TagBit(k));
        UsedTagsBelowSnoc(prev, build(tag), used, tag, Seg.TagBit(k));
      }
    }
  }

  /** The first k flag steps add their segments in increasing tag order. */
  lemma {:induction false} SegmentsUpToIncreasing<V>(used: Seg.Mask, build: Seg.Mask -> Segment<V>, k: nat, segs: seq<Segment<V>>)
    requires KeepsTag(build) && k <= 7 && segs == SegmentsUpTo(used, build, k)
    ensures forall i, j :: 0 <= i < j < |segs| ==> TagPrecedes(segs[i], segs[j])
  {
    if k > 0 {
      var prev := SegmentsUpTo(used, build, k - 1);
      SegmentsUpToIncreasing(used, build, k - 1, prev);
      SegmentsUpToBuilt(used, build, k - 1, prev);
      var tag := Seg.TagBit(k - 1);
      if tag & used != 0 {
        var last := build(tag);
        assert segs == prev + [last];
        forall i, j | 0 <= i < j < |segs|
          ensures TagPrecedes(segs[i], segs[j])
        {
          assert segs[i] == prev[i];
          if j < |prev| {
            assert segs[j] == prev[j];
          }
        }
      }
    }
  }

  /** Each segment of the first k flag steps is the one the builder makes for its tag. */
  lemma {:induction false} SegmentsUpToFromBuild<V>(used: Seg.Mask, build: Seg.Mask -> Segment<V>, k: nat, segs: seq<Segment<V>>)
    requires KeepsTag(build) && k <= 7 && segs == SegmentsUpTo(used, build, k)
    ensures forall i :: 0 <= i < |segs| ==> segs[i] == build(segs[i].tag)
  {
    if k > 0 {
      var prev := SegmentsUpTo(used, build, k - 1);
      SegmentsUpToFromBuild(used, build, k - 1, prev);
      var tag := Seg.TagBit(k - 1);
      if tag & used != 0 {
        var last := build(tag);
        assert segs == prev + [last];
        forall i | 0 <= i < |segs|
          ensures segs[i] == build(segs[i].tag)
        {
          if i < |prev| {
            assert segs[i] == prev[i];
          }
        }
      }
    }
  }

  /** After k flag steps, every used flag among the first k has its segment. */
  lemma {:induction false} SegmentsUpToComplete<V>(used: Seg.Mask, build: Seg.Mask -> Segment<V>, k: nat, segs: seq<Segment<V>>)
    requires KeepsTag(build) && k <= 7 && segs == SegmentsUpTo(used, build, k)
    ensures forall j :: 0 <= j < k && Seg.TagBit(j) & used != 0 ==> exists i :: 0 <= i < |segs| && segs[i].tag == Seg.TagBit(j)
  {
    if k > 0 {
      var prev := SegmentsUpTo(used, build, k - 1);
      SegmentsUpToComplete(used, build, k - 1, prev);
      var tag := Seg.TagBit(k - 1);
      assert |prev| <= |segs| && segs[..|prev|] == prev;
      forall j | 0 <= j < k && Seg.TagBit(j) & used != 0
        ensures exists i :: 0 <= i < |segs| && segs[i].tag == Seg.TagBit(j)
      {
        if j < k - 1 {
          var i :| 0 <= i < |prev| && prev[i].tag == Seg.TagBit(j);
          assert segs[i] == segs[..|prev|][i] == prev[i];
        } else {
          assert segs == prev + [build(tag)];
          assert segs[|segs| - 1].tag == Seg.TagBit(j);
        }
      }
    }
  }
}
