/**
  The region mesher (Assets/BonesCubed/Common/Jobs/GenerateRegionMesh.cs): every visible solid
  voxel of a region, in index order, contributes the segments of its block model to one
  shared vertex list and to the index list of the submesh of its material; the submesh index
  lists are then laid end to end in one 16-bit index buffer.

  The read-only grids (model ids, material ids, visibility) are functions of the position; the
  vertex translation `vertex.position += pos` is the parameter `translate`; the Unity
  `Mesh.MeshData` output is the returned vertex list, index buffer and submesh descriptors.
*/
module RegionMeshes {
  import opened Wrappers
  import opened Coordinates
  import opened Regions
  import opened IntMath
  import opened BlockModels
  import Seg = OccludingSegments

  // ---------------------------------------------------------------- materials and submeshes

  /** No value occurs twice. */
  predicate Distinct(s: seq<int>) {
    forall i, j :: 0 <= i < j < |s| ==> s[i] != s[j]
  }

  /** The first position at or after `from` holding `id`, or |s| when there is none. */
  function FirstIndexFrom(s: seq<int>, id: int, from: nat): (r: nat)
    requires from <= |s|
    ensures from <= r <= |s|
    ensures r < |s| ==> s[r] == id
    ensures forall j :: from <= j < r ==> s[j] != id
    decreases |s| - from
  {
    if from == |s| || s[from] == id then from else FirstIndexFrom(s, id, from + 1)
  }

  /**
    `GetSubmesh` on values: the submesh of a material id is the position of its first
    occurrence in the material list, the id being appended when it is not there yet.
  */
  function SubmeshOf(materials: seq<int>, id: int): (r: (nat, seq<int>))
    ensures r.0 < |r.1| && r.1[r.0] == id
    ensures forall j :: 0 <= j < r.0 ==> r.1[j] != id
    ensures id in materials ==> r.1 == materials
    ensures id !in materials ==> r.1 == materials + [id] && r.0 == |materials|
  {
    var i := FirstIndexFrom(materials, id, 0);
    if i < |materials| then (i, materials) else (i, materials + [id])
  }

  /** The material list stays free of duplicates, and the submesh is the only position of the id. */
  lemma SubmeshOfDistinct(materials: seq<int>, id: int)
    requires Distinct(materials)
    ensures var r := SubmeshOf(materials, id);
      Distinct(r.1) && forall j :: 0 <= j < |r.1| && r.1[j] == id ==> j == r.0
  {
  }

  // ---------------------------------------------------------------- copying segments

  /** Vertices and indices appended to the shared vertex list and to one submesh's index list. */
  datatype Geometry<V> = Geometry(vertices: seq<V>, indices: seq<int>)

  /** Vertices moved to the voxel's position, in order. */
  function Translated<V>(vs: seq<V>, pos: BlockPos, translate: (V, BlockPos) -> V): (r: seq<V>)
    ensures |r| == |vs|
  {
    seq(|vs|, k requires 0 <= k < |vs| => translate(vs[k], pos))
  }

  /** Segment-local indices shifted by `offset` and cast to `ushort`. */
  function Rebased(ixs: seq<int>, offset: int): (r: seq<int>)
    ensures |r| == |ixs|
  {
    seq(|ixs|, k requires 0 <= k < |ixs| => ToUShort(ixs[k] + offset))
  }

  /** What `GetSegment` leaves in the emptied scratch lists: the first segment with the tag, or nothing. */
  function SegmentLists<V>(segments: seq<Segment<V>>, tag: Seg.Mask): Geometry<V> {
    match FirstTagged(segments, tag)
    case None => Geometry([], [])
    case Some(k) => Geometry(segments[k].vertices, segments[k].indices)
  }

  /** One pass of the segment loop: translated vertices appended, indices rebased by the vertex count before them. */
  function CopySegment<V>(g: Geometry<V>, segments: seq<Segment<V>>, tag: Seg.Mask, pos: BlockPos, translate: (V, BlockPos) -> V): Geometry<V>
  {
    var s := SegmentLists(segments, tag);
    Geometry(g.vertices + Translated(s.vertices, pos, translate), g.indices + Rebased(s.indices, |g.vertices|))
  }

  /** Whether the segment loop copies `tag`: always as written; with `cull`, only a visible tag. */
  predicate Copies(cull: bool, visible: Seg.Mask, tag: Seg.Mask) {
    !cull || visible & tag != 0
  }

  /** The first k passes of the segment loop over the tags 1, 2, 4, ..., 64. */
  function CopySegments<V>(g: Geometry<V>, segments: seq<Segment<V>>, visible: Seg.Mask, cull: bool, k: nat,
                           pos: BlockPos, translate: (V, BlockPos) -> V): (r: Geometry<V>)
    requires k <= 7
    ensures |g.vertices| <= |r.vertices| && r.vertices[..|g.vertices|] == g.vertices
    ensures |g.indices| <= |r.indices| && r.indices[..|g.indices|] == g.indices
    decreases k
  {
    if k == 0 then g
    else
      var prev := CopySegments(g, segments, visible, cull, k - 1, pos, translate);
      var tag := Seg.TagBit(k - 1);
      if Copies(cull, visible, tag) then CopySegment(prev, segments, tag, pos, translate) else prev
  }

  /** Every index of a segment names one of its vertices. */
  predicate SegmentWellFormed<V>(s: Segment<V>) {
    forall i :: 0 <= i < |s.indices| ==> 0 <= s.indices[i] < |s.vertices|
  }

  /** Every segment of a model names its own vertices (instantiated only for a segment a proof asks about). */
  predicate ModelWellFormed<V>(segments: seq<Segment<V>>) {
    forall i {:trigger SegmentWellFormed(segments[i])} :: 0 <= i < |segments| ==> SegmentWellFormed(segments[i])
  }

  /** Every index in `ixs` names one of `count` vertices. */
  predicate IndicesBelow(ixs: seq<int>, count: int) {
    forall i :: 0 <= i < |ixs| ==> 0 <= ixs[i] < count
  }

  /**
    Rebasing: while the shared list holds at most 65536 vertices, the k-th index a segment adds
    is its local index plus the earlier vertex count, and names the translated copy of the vertex
    the local index named.
  */
  lemma CopySegmentRefers<V>(g: Geometry<V>, segments: seq<Segment<V>>, tag: Seg.Mask, pos: BlockPos,
                             translate: (V, BlockPos) -> V, k: int)
    requires var s := SegmentLists(segments, tag); 0 <= k < |s.indices| && 0 <= s.indices[k] < |s.vertices|
    requires |CopySegment(g, segments, tag, pos, translate).vertices| <= 65536
    ensures var s := SegmentLists(segments, tag);
      var r := CopySegment(g, segments, tag, pos, translate);
      && |g.indices| + k < |r.indices|
      && r.indices[|g.indices| + k] == |g.vertices| + s.indices[k]
      && r.indices[|g.indices| + k] < |r.vertices|
      && r.vertices[r.indices[|g.indices| + k]] == translate(s.vertices[s.indices[k]], pos)
  {
  }

  /** With more than 65536 vertices the cast wraps: a segment's first vertex, added at 65536, is indexed as vertex 0. */
  lemma RebaseWrapsPast65536<V>(g: Geometry<V>, v: V, tag: Seg.Mask, pos: BlockPos, translate: (V, BlockPos) -> V)
    requires |g.vertices| == 65536
    ensures var r := CopySegment(g, [Segment([v], [0], tag)], tag, pos, translate);
      r.indices == g.indices + [0] && |r.vertices| == 65537 && r.vertices[65536] == translate(v, pos)
  {
    var segments := [Segment([v], [0], tag)];
    assert FirstTagged(segments, tag) == Some(0);
  }

  /** One pass over a well-formed model keeps every index inside the shared vertex list while it holds at most 65536 vertices. */
  lemma CopySegmentInRange<V>(prev: Geometry<V>, segments: seq<Segment<V>>, tag: Seg.Mask, pos: BlockPos, translate: (V, BlockPos) -> V)
    requires ModelWellFormed(segments) && IndicesBelow(prev.indices, |prev.vertices|)
    requires |CopySegment(prev, segments, tag, pos, translate).vertices| <= 65536
    ensures var r := CopySegment(prev, segments, tag, pos, translate);
      IndicesBelow(r.indices, |r.vertices|)
  {
    var r := CopySegment(prev, segments, tag, pos, translate);
    if FirstTagged(segments, tag).Some? {
      assert SegmentWellFormed(segments[FirstTagged(segments, tag).value]);
    }
    forall i | 0 <= i < |r.indices|
      ensures 0 <= r.indices[i] < |r.vertices|
    {
      if i >= |prev.indices| {
        CopySegmentRefers(prev, segments, tag, pos, translate, i - |prev.indices|);
      }
    }
  }

  /** Copying a well-formed model keeps every index inside the shared vertex list while it holds at most 65536 vertices. */
  lemma {:induction false} CopySegmentsInRange<V>(g: Geometry<V>, segments: seq<Segment<V>>, visible: Seg.Mask, cull: bool, k: nat,
                                                  pos: BlockPos, translate: (V, BlockPos) -> V)
    requires k <= 7 && ModelWellFormed(segments)
    requires IndicesBelow(g.indices, |g.vertices|)
    requires |CopySegments(g, segments, visible, cull, k, pos, translate).vertices| <= 65536
    ensures var r := CopySegments(g, segments, visible, cull, k, pos, translate);
      IndicesBelow(r.indices, |r.vertices|)
    decreases k
  {
    if k > 0 {
      var prev := CopySegments(g, segments, visible, cull, k - 1, pos, translate);
      var tag := Seg.TagBit(k - 1);
      CopySegmentsInRange(g, segments, visible, cull, k - 1, pos, translate);
      if Copies(cull, visible, tag) {
        CopySegmentInRange(prev, segments, tag, pos, translate);
      }
    }
  }

  // ---------------------------------------------------------------- culling

  /** The segments whose tag is among the visible flags, in order (see `VisibleOnlyRule`). */
  function VisibleOnly<V>(segments: seq<Segment<V>>, visible: Seg.Mask): (r: seq<Segment<V>>)
    ensures |r| <= |segments|
  {
    if segments == [] then []
    else
      var rest := VisibleOnly(segments[1..], visible);
      if segments[0].tag & visible != 0 then [segments[0]] + rest else rest
  }

  /** Culling keeps only segments of the model, each with a visible tag. */
  lemma VisibleOnlySound<V>(segments: seq<Segment<V>>, visible: Seg.Mask)
    ensures forall i :: 0 <= i < |VisibleOnly(segments, visible)| ==>
      VisibleOnly(segments, visible)[i] in segments && VisibleOnly(segments, visible)[i].tag & visible != 0
  {
    forall i | 0 <= i < |VisibleOnly(segments, visible)|
      ensures VisibleOnly(segments, visible)[i] in segments && VisibleOnly(segments, visible)[i].tag & visible != 0
    {
      VisibleOnlyAt(segments, visible, i);
    }
  }

  /** Entry i of the culled list is a segment of the model with a visible tag. */
  lemma {:induction false} VisibleOnlyAt<V>(segments: seq<Segment<V>>, visible: Seg.Mask, i: int)
    requires 0 <= i < |VisibleOnly(segments, visible)|
    ensures VisibleOnly(segments, visible)[i] in segments && VisibleOnly(segments, visible)[i].tag & visible != 0
    decreases |segments|
  {
    var tail := segments[1..];
    var rest := VisibleOnly(tail, visible);
    var r := VisibleOnly(segments, visible);
    var j := if segments[0].tag & visible != 0 then i - 1 else i;
    if j >= 0 {
      assert r[i] == rest[j];
      VisibleOnlyAt(tail, visible, j);
      var k :| 0 <= k < |tail| && tail[k] == rest[j];
      assert segments[k + 1] == r[i];
    }
  }

  /** Culling keeps every segment with a visible tag. */
  lemma {:induction false} VisibleOnlyComplete<V>(segments: seq<Segment<V>>, visible: Seg.Mask)
    ensures forall i :: 0 <= i < |segments| && segments[i].tag & visible != 0 ==> segments[i] in VisibleOnly(segments, visible)
    decreases |segments|
  {
    if segments != [] {
      var tail := segments[1..];
      var rest := VisibleOnly(tail, visible);
      VisibleOnlyComplete(tail, visible);
      var r := VisibleOnly(segments, visible);
      if segments[0].tag & visible != 0 {
        assert r == [segments[0]] + rest;
      } else {
        assert r == rest;
      }
      forall i | 0 <= i < |segments| && segments[i].tag & visible != 0
        ensures segments[i] in r
      {
        if i > 0 {
          assert segments[i] == tail[i - 1];
          assert segments[i] in rest;
        }
      }
    }
  }

  /** Dropping the hidden segments changes no lookup of a visible tag and empties every hidden one. */
  lemma {:induction false} SegmentListsVisibleOnly<V>(segments: seq<Segment<V>>, visible: Seg.Mask, tag: Seg.Mask)
    ensures SegmentLists(VisibleOnly(segments, visible), tag) ==
      if visible & tag != 0 then SegmentLists(segments, tag) else Geometry([], [])
    decreases |segments|
  {
    if segments == [] {
      assert FirstTagged(VisibleOnly(segments, visible), tag).None?;
    } else {
      var tail := segments[1..];
      var rest := VisibleOnly(tail, visible);
      var r := VisibleOnly(segments, visible);
      SegmentListsVisibleOnly(tail, visible, tag);
      FirstTaggedTail(segments, tag);
      if segments[0].tag & visible != 0 {
        assert r == [segments[0]] + rest && r[0] == segments[0] && r[1..] == rest;
        FirstTaggedTail(r, tag);
      } else {
        assert r == rest;
        assert segments[0].tag == tag ==> visible & tag == 0;
      }
    }
  }

  /** The first-match lookup in terms of the first segment and the rest. */
  lemma FirstTaggedTail<V>(segments: seq<Segment<V>>, tag: Seg.Mask)
    requires segments != []
    ensures SegmentLists(segments, tag) ==
      if segments[0].tag == tag then Geometry(segments[0].vertices, segments[0].indices)
      else SegmentLists(segments[1..], tag)
  {
    var f := FirstTagged(segments, tag);
    var g := FirstTagged(segments[1..], tag);
    if segments[0].tag != tag {
      FirstTaggedRule(segments, tag);
      FirstTaggedRule(segments[1..], tag);
      if f.Some? {
        assert segments[1..][f.value - 1] == segments[f.value];
        assert g.Some? && g.value == f.value - 1;
      }
    }
  }

  /**
    The intended segment loop: copying only the visible tags draws exactly what the loop as
    written draws for the model stripped of its hidden segments.
  */
  lemma {:induction false} CulledCopiesVisibleSegments<V>(g: Geometry<V>, segments: seq<Segment<V>>, visible: Seg.Mask, k: nat,
                                                          pos: BlockPos, translate: (V, BlockPos) -> V)
    requires k <= 7
    ensures CopySegments(g, segments, visible, true, k, pos, translate) ==
      CopySegments(g, VisibleOnly(segments, visible), visible, false, k, pos, translate)
    decreases k
  {
    if k > 0 {
      CulledCopiesVisibleSegments(g, segments, visible, k - 1, pos, translate);
      SegmentListsVisibleOnly(segments, visible, Seg.TagBit(k - 1));
    }
  }

  /**
    The loop as written: a voxel showing only its north face and centre still gets the south
    segment of its model, whose indices the culled loop leaves out.
  */
  lemma AsWrittenCopiesHiddenSegments<V>(v: V, pos: BlockPos, translate: (V, BlockPos) -> V)
    ensures var segments := [Segment([v], [0, 0, 0], Seg.South)];
      var visible := Seg.North | Seg.Center;
      && |CopySegments(Geometry([], []), segments, visible, false, 7, pos, translate).indices| == 3
      && CopySegments(Geometry([], []), segments, visible, true, 7, pos, translate) == Geometry([], [])
  {
    var segments := [Segment([v], [0, 0, 0], Seg.South)];
    var visible := Seg.North | Seg.Center;
    var e := Geometry([], []);
    assert FirstTagged(segments, Seg.South) == Some(0);
    forall t | Seg.IsTag(t) && t != Seg.South
      ensures SegmentLists(segments, t) == e
    {
      assert FirstTagged(segments, t).None?;
    }
    assert Seg.TagBit(0) == Seg.North && Seg.TagBit(1) == Seg.East && Seg.TagBit(2) == Seg.South;
    assert Seg.TagBit(3) == Seg.West && Seg.TagBit(4) == Seg.Top && Seg.TagBit(5) == Seg.Bottom && Seg.TagBit(6) == Seg.Center;
    assert CopySegments(e, segments, visible, false, 2, pos, translate) == e;
    assert CopySegments(e, segments, visible, true, 3, pos, translate) == e;
  }

  // ---------------------------------------------------------------- the region pass

  /** The read-only inputs of the job; `atlas[m]` holds the segments of `models[m]`. */
  datatype Inputs<!V> = Inputs(atlas: seq<seq<Segment<V>>>, modelIds: BlockPos -> int, materialIds: BlockPos -> int,
                              region: Region, visibility: BlockPos -> Seg.Mask, translate: (V, BlockPos) -> V)

  /** A region with cells, and model ids that are 0 (empty) or name a model at every cell. */
  ghost predicate Ready<V>(inp: Inputs<V>) {
    && Proper(inp.region)
    && forall p :: Contains(inp.region, p) ==> 0 <= inp.modelIds(p) <= |inp.atlas|
  }

  /** The state the voxel loop builds: the shared vertex list, the submesh index lists and the material list. */
  datatype Build<V> = Build(vertices: seq<V>, lists: seq<seq<int>>, materials: seq<int>)

  /** The submesh index lists, grown with empty lists until there are at least n. */
  function Padded(lists: seq<seq<int>>, n: nat): (r: seq<seq<int>>)
    ensures |r| == if |lists| < n then n else |lists|
    ensures r[..|lists|] == lists && forall s :: |lists| <= s < |r| ==> r[s] == []
  {
    if |lists| < n then lists + seq(n - |lists|, _ => []) else lists
  }

  /** Whether the voxel at `pos` adds geometry: it is visible and holds a model. */
  predicate Draws<V>(inp: Inputs<V>, pos: BlockPos) {
    inp.visibility(pos) != Seg.NoSegment && inp.modelIds(pos) - 1 >= 0
  }

  /** The body of the voxel loop for a drawn voxel: its submesh, then its model's segments (see `DrawVoxelGrows`). */
  function DrawVoxel<V>(inp: Inputs<V>, b: Build<V>, pos: BlockPos, cull: bool): (r: Build<V>)
    requires Ready(inp) && Contains(inp.region, pos) && Draws(inp, pos)
    ensures r.materials == SubmeshOf(b.materials, inp.materialIds(pos)).1
  {
    var sub := SubmeshOf(b.materials, inp.materialIds(pos));
    var lists := Padded(b.lists, sub.0 + 1);
    var g := CopySegments(Geometry(b.vertices, lists[sub.0]), inp.atlas[inp.modelIds(pos) - 1], inp.visibility(pos), cull, Seg.TagCount, pos, inp.translate);
    Build(g.vertices, lists[sub.0 := g.indices], sub.1)
  }

  /**
    Drawing a voxel only appends: the vertex list and every submesh list keep what they held,
    and the submesh lists grow to cover the voxel's submesh.
  */
  lemma DrawVoxelGrows<V>(inp: Inputs<V>, b: Build<V>, pos: BlockPos, cull: bool)
    requires Ready(inp) && Contains(inp.region, pos) && Draws(inp, pos)
    ensures var r := DrawVoxel(inp, b, pos, cull);
      && |b.vertices| <= |r.vertices| && r.vertices[..|b.vertices|] == b.vertices
      && |b.lists| <= |r.lists|
      && (forall s :: 0 <= s < |b.lists| ==> |b.lists[s]| <= |r.lists[s]| && r.lists[s][..|b.lists[s]|] == b.lists[s])
      && |r.lists| == |Padded(b.lists, SubmeshOf(b.materials, inp.materialIds(pos)).0 + 1)|
  {
    var sub := SubmeshOf(b.materials, inp.materialIds(pos));
    var lists := Padded(b.lists, sub.0 + 1);
    var r := DrawVoxel(inp, b, pos, cull);
    forall s | 0 <= s < |b.lists|
      ensures |b.lists[s]| <= |r.lists[s]| && r.lists[s][..|b.lists[s]|] == b.lists[s]
    {
      assert lists[s] == lists[..|b.lists|][s] == b.lists[s];
    }
  }

  /** One pass of the voxel loop at `pos`: an invisible or empty voxel is skipped. */
  function VoxelStep<V>(inp: Inputs<V>, b: Build<V>, pos: BlockPos, cull: bool): Build<V>
    requires Ready(inp) && Contains(inp.region, pos)
  {
    if inp.visibility(pos) == Seg.NoSegment then b
    else if inp.modelIds(pos) - 1 < 0 then b
    else DrawVoxel(inp, b, pos, cull)
  }

  /** Cells of the job's region. */
  ghost predicate InRegion<V>(inp: Inputs<V>, cells: seq<BlockPos>) {
    forall i :: 0 <= i < |cells| ==> Contains(inp.region, cells[i])
  }

  /**
    The voxel loop over the given cells, in order. The job runs it over `Cells(region)`, the
    cells of the region in index order.
  */
  function BuildOver<V>(inp: Inputs<V>, start: Build<V>, cells: seq<BlockPos>, cull: bool): Build<V>
    requires Ready(inp) && InRegion(inp, cells)
    decreases |cells|
  {
    if cells == [] then start
    else VoxelStep(inp, BuildOver(inp, start, cells[..|cells| - 1], cull), cells[|cells| - 1], cull)
  }

  /** The state the job starts from: no vertices, no submeshes, and whatever materials the list already holds. */
  function Start<V>(materials: seq<int>): Build<V> {
    Build([], [], materials)
  }

  /** The material has an entry in the material list, and that entry has a submesh list. */
  predicate HasSubmesh<V>(b: Build<V>, id: int) {
    id in b.materials && FirstIndexFrom(b.materials, id, 0) < |b.lists|
  }

  /** One voxel keeps the material list growing and duplicate-free and gives the voxel's material a submesh list. */
  lemma VoxelStepMaterials<V>(inp: Inputs<V>, b: Build<V>, pos: BlockPos, cull: bool)
    requires Ready(inp) && Contains(inp.region, pos)
    requires Distinct(b.materials) && |b.lists| <= |b.materials|
    ensures var r := VoxelStep(inp, b, pos, cull);
      && Distinct(r.materials) && |r.lists| <= |r.materials|
      && |b.materials| <= |r.materials| && r.materials[..|b.materials|] == b.materials
      && (forall id :: HasSubmesh(b, id) ==> HasSubmesh(r, id))
      && (Draws(inp, pos) ==> HasSubmesh(r, inp.materialIds(pos)))
  {
    var r := VoxelStep(inp, b, pos, cull);
    if Draws(inp, pos) {
      var id := inp.materialIds(pos);
      SubmeshOfDistinct(b.materials, id);
      var sub := SubmeshOf(b.materials, id);
      assert |r.lists| == |Padded(b.lists, sub.0 + 1)|;
      FirstIndexUnique(sub.1, id, sub.0);
      forall id' | HasSubmesh(b, id')
        ensures HasSubmesh(r, id')
      {
        var at := FirstIndexFrom(b.materials, id', 0);
        assert r.materials[at] == id';
        FirstIndexUnique(r.materials, id', at);
      }
    }
  }

  /**
    What the voxel loop keeps true of the materials: the list only grows, stays free of
    duplicates, and has an entry for every submesh list.
  */
  lemma {:induction false} BuildMaterials<V>(inp: Inputs<V>, materials: seq<int>, cells: seq<BlockPos>, cull: bool, b: Build<V>)
    requires Ready(inp) && InRegion(inp, cells) && Distinct(materials)
    requires b == BuildOver(inp, Start(materials), cells, cull)
    ensures Distinct(b.materials) && |b.lists| <= |b.materials|
    ensures |materials| <= |b.materials| && b.materials[..|materials|] == materials
    decreases |cells|
  {
    if cells != [] {
      var init := cells[..|cells| - 1];
      var prev := BuildOver(inp, Start(materials), init, cull);
      BuildMaterials(inp, materials, init, cull, prev);
      VoxelStepMaterials(inp, prev, cells[|cells| - 1], cull);
      assert b.materials[..|materials|] == prev.materials[..|materials|];
    }
  }

  /** Every drawn voxel among the cells has a submesh list for its material. */
  ghost predicate CoversDrawn<V>(inp: Inputs<V>, b: Build<V>, cells: seq<BlockPos>) {
    forall i :: 0 <= i < |cells| && Draws(inp, cells[i]) ==> HasSubmesh(b, inp.materialIds(cells[i]))
  }

  /** Covering all cells but the last, keeping old submeshes and covering the last cell covers them all. */
  lemma CoversDrawnExtend<V>(inp: Inputs<V>, prev: Build<V>, b: Build<V>, cells: seq<BlockPos>)
    requires cells != [] && CoversDrawn(inp, prev, cells[..|cells| - 1])
    requires forall id :: HasSubmesh(prev, id) ==> HasSubmesh(b, id)
    requires Draws(inp, cells[|cells| - 1]) ==> HasSubmesh(b, inp.materialIds(cells[|cells| - 1]))
    ensures CoversDrawn(inp, b, cells)
  {
    forall i | 0 <= i < |cells| && Draws(inp, cells[i])
      ensures HasSubmesh(b, inp.materialIds(cells[i]))
    {
      if i < |cells| - 1 {
        assert cells[..|cells| - 1][i] == cells[i];
      }
    }
  }

  /** After the loop, every drawn voxel's material has a submesh list (`meshIndices.Length > submesh`). */
  lemma {:induction false} BuildCoversDrawn<V>(inp: Inputs<V>, materials: seq<int>, cells: seq<BlockPos>, cull: bool, b: Build<V>)
    requires Ready(inp) && InRegion(inp, cells) && Distinct(materials)
    requires b == BuildOver(inp, Start(materials), cells, cull)
    ensures CoversDrawn(inp, b, cells)
    decreases |cells|
  {
    if cells != [] {
      var init := cells[..|cells| - 1];
      var prev := BuildOver(inp, Start(materials), init, cull);
      BuildCoversDrawn(inp, materials, init, cull, prev);
      BuildMaterials(inp, materials, init, cull, prev);
      VoxelStepMaterials(inp, prev, cells[|cells| - 1], cull);
      CoversDrawnExtend(inp, prev, b, cells);
    }
  }

  /** In a list without duplicates the first position of a value is its only one. */
  lemma FirstIndexUnique(s: seq<int>, id: int, at: int)
    requires Distinct(s) && 0 <= at < |s| && s[at] == id
    ensures FirstIndexFrom(s, id, 0) == at
  {
  }

  /** Every segment of every model names its own vertices. */
  ghost predicate AtlasWellFormed<V>(atlas: seq<seq<Segment<V>>>) {
    forall m {:trigger ModelWellFormed(atlas[m])} :: 0 <= m < |atlas| ==> ModelWellFormed(atlas[m])
  }

  /** Every index of every submesh names a vertex of the shared list. */
  predicate ListsBelow(lists: seq<seq<int>>, count: int) {
    forall s :: 0 <= s < |lists| ==> IndicesBelow(lists[s], count)
  }

  /** Growing the submesh lists with empty lists keeps them inside the vertex list. */
  lemma PaddedBelow(lists: seq<seq<int>>, n: nat, count: int)
    requires ListsBelow(lists, count)
    ensures ListsBelow(Padded(lists, n), count)
  {
    var r := Padded(lists, n);
    forall s | 0 <= s < |r|
      ensures IndicesBelow(r[s], count)
    {
      if s < |lists| {
        assert r[s] == r[..|lists|][s];
      }
    }
  }

  /** Replacing one list by one inside a longer vertex list keeps all of them inside it. */
  lemma UpdateBelow(lists: seq<seq<int>>, s: int, list: seq<int>, count: int, count': int)
    requires ListsBelow(lists, count) && count <= count' && IndicesBelow(list, count') && 0 <= s < |lists|
    ensures ListsBelow(lists[s := list], count')
  {
    var updated := lists[s := list];
    forall t | 0 <= t < |updated|
      ensures IndicesBelow(updated[t], count')
    {
      if t != s {
        assert IndicesBelow(lists[t], count);
      }
    }
  }

  /** Drawing one voxel keeps every index inside the vertex list while that list holds at most 65536 vertices. */
  lemma DrawVoxelInRange<V>(inp: Inputs<V>, b: Build<V>, pos: BlockPos, cull: bool)
    requires Ready(inp) && Contains(inp.region, pos) && Draws(inp, pos) && AtlasWellFormed(inp.atlas)
    requires ListsBelow(b.lists, |b.vertices|) && |DrawVoxel(inp, b, pos, cull).vertices| <= 65536
    ensures var r := DrawVoxel(inp, b, pos, cull); ListsBelow(r.lists, |r.vertices|)
  {
    var sub := SubmeshOf(b.materials, inp.materialIds(pos));
    var segments := inp.atlas[inp.modelIds(pos) - 1];
    DrawVoxelShape(inp, b, pos, cull);
    assert ModelWellFormed(segments);
    CopyIntoSubmeshInRange(b.vertices, b.lists, sub.0, segments, inp.visibility(pos), cull, pos, inp.translate);
  }

  /** A drawn voxel's result, assembled from its submesh, its padded lists and its copied model. */
  lemma DrawVoxelOfParts<V>(inp: Inputs<V>, b: Build<V>, pos: BlockPos, cull: bool, sub: (nat, seq<int>), lists: seq<seq<int>>, g: Geometry<V>)
    requires Ready(inp) && Contains(inp.region, pos) && Draws(inp, pos)
    requires sub == SubmeshOf(b.materials, inp.materialIds(pos)) && lists == Padded(b.lists, sub.0 + 1)
    requires g == CopySegments(Geometry(b.vertices, lists[sub.0]), inp.atlas[inp.modelIds(pos) - 1], inp.visibility(pos), cull, Seg.TagCount, pos, inp.translate)
    ensures DrawVoxel(inp, b, pos, cull) == Build(g.vertices, lists[sub.0 := g.indices], sub.1)
  {
  }

  /** A drawn voxel's model is copied into its submesh list, which is put back in place. */
  lemma DrawVoxelShape<V>(inp: Inputs<V>, b: Build<V>, pos: BlockPos, cull: bool)
    requires Ready(inp) && Contains(inp.region, pos) && Draws(inp, pos)
    ensures var s := SubmeshOf(b.materials, inp.materialIds(pos)).0;
      var g := CopySegments(Geometry(b.vertices, Padded(b.lists, s + 1)[s]), inp.atlas[inp.modelIds(pos) - 1],
                            inp.visibility(pos), cull, Seg.TagCount, pos, inp.translate);
      && DrawVoxel(inp, b, pos, cull).vertices == g.vertices
      && DrawVoxel(inp, b, pos, cull).lists == Padded(b.lists, s + 1)[s := g.indices]
  {
  }

  /** Copying a well-formed model into submesh list s keeps every submesh list inside the grown vertex list. */
  lemma CopyIntoSubmeshInRange<V>(vertices: seq<V>, lists: seq<seq<int>>, s: nat, segments: seq<Segment<V>>, visible: Seg.Mask,
                                  cull: bool, pos: BlockPos, translate: (V, BlockPos) -> V)
    requires ListsBelow(lists, |vertices|) && ModelWellFormed(segments)
    requires |CopySegments(Geometry(vertices, Padded(lists, s + 1)[s]), segments, visible, cull, Seg.TagCount, pos, translate).vertices| <= 65536
    ensures var g := CopySegments(Geometry(vertices, Padded(lists, s + 1)[s]), segments, visible, cull, Seg.TagCount, pos, translate);
      ListsBelow(Padded(lists, s + 1)[s := g.indices], |g.vertices|)
  {
    var g0 := Geometry(vertices, Padded(lists, s + 1)[s]);
    PaddedBelow(lists, s + 1, |vertices|);
    CopySegmentsInRange(g0, segments, visible, cull, Seg.TagCount, pos, translate);
    PlaceBelow(lists, s, g0, CopySegments(g0, segments, visible, cull, Seg.TagCount, pos, translate));
  }

  /** Putting a grown copy of submesh list s back keeps every submesh list inside the grown vertex list. */
  lemma PlaceBelow<V>(lists: seq<seq<int>>, s: nat, g0: Geometry<V>, g: Geometry<V>)
    requires ListsBelow(Padded(lists, s + 1), |g0.vertices|) && |g0.vertices| <= |g.vertices|
    requires IndicesBelow(g.indices, |g.vertices|)
    ensures ListsBelow(Padded(lists, s + 1)[s := g.indices], |g.vertices|)
  {
    UpdateBelow(Padded(lists, s + 1), s, g.indices, |g0.vertices|, |g.vertices|);
  }

  /** One voxel keeps every index inside the vertex list while that list holds at most 65536 vertices. */
  lemma VoxelStepInRange<V>(inp: Inputs<V>, b: Build<V>, pos: BlockPos, cull: bool)
    requires Ready(inp) && Contains(inp.region, pos) && AtlasWellFormed(inp.atlas)
    requires ListsBelow(b.lists, |b.vertices|) && |VoxelStep(inp, b, pos, cull).vertices| <= 65536
    ensures var r := VoxelStep(inp, b, pos, cull); ListsBelow(r.lists, |r.vertices|)
  {
    if Draws(inp, pos) {
      DrawVoxelInRange(inp, b, pos, cull);
    }
  }

  /**
    While the region's vertex list stays within the 65536 vertices a 16-bit index can name,
    every index the job emits names a vertex of that list.
  */
  lemma {:induction false} BuildIndicesInRange<V>(inp: Inputs<V>, materials: seq<int>, cells: seq<BlockPos>, cull: bool, b: Build<V>)
    requires Ready(inp) && InRegion(inp, cells) && AtlasWellFormed(inp.atlas)
    requires b == BuildOver(inp, Start(materials), cells, cull) && |b.vertices| <= 65536
    ensures ListsBelow(b.lists, |b.vertices|)
    decreases |cells|
  {
    if cells != [] {
      var init := cells[..|cells| - 1];
      var prev := BuildOver(inp, Start(materials), init, cull);
      var pos := cells[|cells| - 1];
      if Draws(inp, pos) {
        DrawVoxelGrows(inp, prev, pos, cull);
      }
      BuildIndicesInRange(inp, materials, init, cull, prev);
      VoxelStepInRange(inp, prev, pos, cull);
    }
  }

  // ---------------------------------------------------------------- the index buffer

  /** The submesh index lists laid end to end. */
  function Concat(lists: seq<seq<int>>): (r: seq<int>)
    decreases |lists|
  {
    if lists == [] then [] else Concat(lists[..|lists| - 1]) + lists[|lists| - 1]
  }

  /** `SubMeshDescriptor(indexStart, indexCount)`. */
  datatype SubMeshDescriptor = SubMeshDescriptor(indexStart: int, indexCount: int)

  /** The descriptor of every submesh: where its list starts in the buffer, and its length. */
  function Descriptors(lists: seq<seq<int>>): (r: seq<SubMeshDescriptor>)
    ensures |r| == |lists|
  {
    seq(|lists|, i requires 0 <= i < |lists| => SubMeshDescriptor(|Concat(lists[..i])|, |lists[i]|))
  }

  /** Concatenating one more list. */
  lemma ConcatSnoc(lists: seq<seq<int>>, i: int)
    requires 0 <= i < |lists|
    ensures Concat(lists[..i + 1]) == Concat(lists[..i]) + lists[i]
  {
    assert lists[..i + 1][..i] == lists[..i];
  }

  /** A prefix of the lists concatenates to a prefix of the buffer. */
  lemma {:induction false} ConcatPrefix(lists: seq<seq<int>>, i: int)
    requires 0 <= i <= |lists|
    ensures |Concat(lists[..i])| <= |Concat(lists)| && Concat(lists)[..|Concat(lists[..i])|] == Concat(lists[..i])
    decreases |lists| - i
  {
    if i < |lists| {
      ConcatPrefix(lists, i + 1);
      ConcatSnoc(lists, i);
    } else {
      assert lists[..i] == lists;
    }
  }

  /**
    The layout of the index buffer: submesh i's descriptor covers exactly its list, the
    descriptors follow one another without gaps, and together they cover the buffer.
  */
  lemma ConcatLayout(lists: seq<seq<int>>, i: int)
    requires 0 <= i < |lists|
    ensures var d := Descriptors(lists)[i]; var buffer := Concat(lists);
      && 0 <= d.indexStart && d.indexStart + d.indexCount <= |buffer|
      && buffer[d.indexStart..d.indexStart + d.indexCount] == lists[i]
      && (i + 1 < |lists| ==> Descriptors(lists)[i + 1].indexStart == d.indexStart + d.indexCount)
      && (i + 1 == |lists| ==> d.indexStart + d.indexCount == |buffer|)
  {
    ConcatPrefix(lists, i + 1);
    ConcatSnoc(lists, i);
    var buffer := Concat(lists);
    var a := |Concat(lists[..i])|;
    assert buffer[..a + |lists[i]|] == Concat(lists[..i]) + lists[i];
    assert buffer[a..a + |lists[i]|] == (Concat(lists[..i]) + lists[i])[a..];
    if i + 1 == |lists| {
      assert lists[..i + 1] == lists;
    }
  }

  /** Growing the lists by one more empty list. */
  lemma PaddedSnoc(lists: seq<seq<int>>, n: nat)
    requires |lists| <= n
    ensures Padded(lists, n + 1) == Padded(lists, n) + [[]]
  {
  }

  // ---------------------------------------------------------------- the job

  /**
    The index buffer: the totals loop sizes it, then each submesh list is copied in at a
    running index and described by where it starts and how long it is.
  */
  method WriteIndexBuffer(lists: seq<seq<int>>) returns (buffer: array<int>, descriptors: seq<SubMeshDescriptor>)
    ensures fresh(buffer)
    ensures buffer[..] == Concat(lists) && descriptors == Descriptors(lists)
  {
    var totalIndices := 0;
    var i := 0;
    while i < |lists|
      invariant 0 <= i <= |lists| && totalIndices == |Concat(lists[..i])|
    {
      ConcatSnoc(lists, i);
      totalIndices := totalIndices + |lists[i]|;
      i := i + 1;
    }
    assert lists[..|lists|] == lists;
    buffer := new int[totalIndices];
    descriptors := [];
    var index := 0;
    i := 0;
    while i < |lists|
      invariant 0 <= i <= |lists| && index == |Concat(lists[..i])|
      invariant index <= buffer.Length && buffer[..index] == Concat(lists[..i])
      invariant descriptors == Descriptors(lists)[..i]
    {
      var startIndex := index;
      var indices := lists[i];
      ConcatSnoc(lists, i);
      ConcatPrefix(lists, i + 1);
      var j := 0;
      while j < |indices|
        invariant 0 <= j <= |indices| && index == startIndex + j
        invariant buffer[..index] == Concat(lists[..i]) + indices[..j]
      {
        buffer[index] := indices[j];
        assert buffer[..index + 1] == buffer[..index] + [indices[j]];
        assert indices[..j + 1] == indices[..j] + [indices[j]];
        index := index + 1;
        j := j + 1;
      }
      assert indices[..j] == indices;
      descriptors := descriptors + [SubMeshDescriptor(startIndex, |indices|)];
      assert Descriptors(lists)[..i + 1] == Descriptors(lists)[..i] + [Descriptors(lists)[i]];
      i := i + 1;
    }
    assert buffer[..] == buffer[..index];
  }

  /** The vertex copy loop: each scratch vertex moved to the voxel and appended. */
  method AppendTranslated<V>(vertices: seq<V>, tempVerts: seq<V>, pos: BlockPos, translate: (V, BlockPos) -> V) returns (vertices': seq<V>)
    ensures vertices' == vertices + Translated(tempVerts, pos, translate)
  {
    vertices' := vertices;
    var k := 0;
    while k < |tempVerts|
      invariant 0 <= k <= |tempVerts|
      invariant vertices' == vertices + Translated(tempVerts[..k], pos, translate)
    {
      assert Translated(tempVerts[..k + 1], pos, translate) == Translated(tempVerts[..k], pos, translate) + [translate(tempVerts[k], pos)];
      vertices' := vertices' + [translate(tempVerts[k], pos)];
      k := k + 1;
    }
    assert tempVerts[..k] == tempVerts;
  }

  /** The index copy loop: each scratch index shifted by the vertex offset, cast to `ushort` and appended. */
  method AppendRebased(list: seq<int>, tempIndis: seq<int>, vertexOffset: int) returns (list': seq<int>)
    ensures list' == list + Rebased(tempIndis, vertexOffset)
  {
    list' := list;
    var k := 0;
    while k < |tempIndis|
      invariant 0 <= k <= |tempIndis|
      invariant list' == list + Rebased(tempIndis[..k], vertexOffset)
    {
      assert Rebased(tempIndis[..k + 1], vertexOffset) == Rebased(tempIndis[..k], vertexOffset) + [ToUShort(tempIndis[k] + vertexOffset)];
      list' := list' + [ToUShort(tempIndis[k] + vertexOffset)];
      k := k + 1;
    }
    assert tempIndis[..k] == tempIndis;
  }

  /** One pass of the segment loop: `GetSegment` into the emptied scratch lists, then both copy loops. */
  method CopyOneSegment<V>(model: UnsafeBlockModel<V>, segment: Seg.Mask, pos: BlockPos, translate: (V, BlockPos) -> V,
                           vertices: seq<V>, list: seq<int>) returns (vertices': seq<V>, list': seq<int>)
    ensures Geometry(vertices', list') == CopySegment(Geometry(vertices, list), model.segments, segment, pos, translate)
  {
    var tempVerts, tempIndis := model.GetSegment([], [], segment);
    assert Geometry(tempVerts, tempIndis) == SegmentLists(model.segments, segment);
    var vertexOffset := |vertices|;
    vertices' := AppendTranslated(vertices, tempVerts, pos, translate);
    list' := AppendRebased(list, tempIndis, vertexOffset);
  }

  /** The segment loop as written: every tag 1, 2, 4, ..., 64 in turn, whatever `visible` holds. */
  method CopyModel<V>(model: UnsafeBlockModel<V>, pos: BlockPos, visible: Seg.Mask, translate: (V, BlockPos) -> V,
                      vertices: seq<V>, list: seq<int>) returns (vertices': seq<V>, list': seq<int>)
    ensures Geometry(vertices', list') == CopySegments(Geometry(vertices, list), model.segments, visible, false, Seg.TagCount, pos, translate)
  {
    vertices', list' := vertices, list;
    var segment: Seg.Mask := 1;
    ghost var k := 0;
    while segment < Seg.Everything
      invariant k <= 7 && segment == Seg.TagBit(k) && (k < 7 <==> segment < Seg.Everything)
      invariant Geometry(vertices', list') == CopySegments(Geometry(vertices, list), model.segments, visible, false, k, pos, translate)
      decreases 7 - k
    {
      vertices', list' := CopyOneSegment(model, segment, pos, translate, vertices', list');
      Seg.TagBitOrder(k);
      segment := segment << 1;
      k := k + 1;
    }
  }

  /** `while (meshIndices.Length <= submesh) meshIndices.Add(...)`: empty lists up to the submesh. */
  method PadLists(lists: seq<seq<int>>, submesh: nat) returns (lists': seq<seq<int>>)
    ensures lists' == Padded(lists, submesh + 1)
  {
    lists' := lists;
    while |lists'| <= submesh
      invariant lists' == Padded(lists, |lists'|)
      invariant |lists'| == |lists| || |lists'| <= submesh + 1
      decreases submesh + 1 - |lists'|
    {
      PaddedSnoc(lists, |lists'|);
      lists' := lists' + [[]];
    }
  }

  /** The `GenerateRegionMesh` job: its read-only inputs and the material list it extends. */
  class GenerateRegionMesh<V> {
    const models: seq<UnsafeBlockModel<V>>
    const modelIds: BlockPos -> int
    const materialIds: BlockPos -> int
    /** The region of the visibility grid. */
    const region: Region
    const visibility: BlockPos -> Seg.Mask
    const translate: (V, BlockPos) -> V
    var materialIndices: seq<int>

    constructor (models: seq<UnsafeBlockModel<V>>, modelIds: BlockPos -> int, materialIds: BlockPos -> int, region: Region,
                 visibility: BlockPos -> Seg.Mask, translate: (V, BlockPos) -> V, materialIndices: seq<int>)
      ensures this.models == models && this.modelIds == modelIds && this.materialIds == materialIds
      ensures this.region == region && this.visibility == visibility && this.translate == translate
      ensures this.materialIndices == materialIndices
    {
      this.models := models;
      this.modelIds := modelIds;
      this.materialIds := materialIds;
      this.region := region;
      this.visibility := visibility;
      this.translate := translate;
      this.materialIndices := materialIndices;
    }

    /** The inputs, with `atlas` standing for the models' segment lists. */
    function Job(atlas: seq<seq<Segment<V>>>): Inputs<V> {
      Inputs(atlas, modelIds, materialIds, region, visibility, translate)
    }

    /** The models hold the segment lists `atlas` names. */
    ghost predicate Holds(atlas: seq<seq<Segment<V>>>)
      reads models
    {
      |atlas| == |models| && forall m :: 0 <= m < |models| ==> models[m].segments == atlas[m]
    }

    /** `GetSubmesh`: the position of the material id in `materialIndices`, appended when absent. */
    method GetSubmesh(materialId: int) returns (submesh: int)
      modifies this
      ensures submesh == SubmeshOf(old(materialIndices), materialId).0
      ensures materialIndices == SubmeshOf(old(materialIndices), materialId).1
    {
      var i := 0;
      while i < |materialIndices|
        invariant 0 <= i <= |materialIndices| && materialIndices == old(materialIndices)
        invariant FirstIndexFrom(materialIndices, materialId, i) == FirstIndexFrom(materialIndices, materialId, 0)
      {
        if materialIndices[i] == materialId {
          return i;
        }
        i := i + 1;
      }
      materialIndices := materialIndices + [materialId];
      return |materialIndices| - 1;
    }

    /** The body of the voxel loop for a visible voxel holding a model. */
    method DrawVoxelAt(ghost atlas: seq<seq<Segment<V>>>, pos: BlockPos, vertices: seq<V>, lists: seq<seq<int>>)
      returns (vertices': seq<V>, lists': seq<seq<int>>)
      requires Ready(Job(atlas)) && Holds(atlas) && Contains(region, pos) && Draws(Job(atlas), pos)
      modifies this
      ensures Build(vertices', lists', materialIndices) == DrawVoxel(Job(atlas), Build(vertices, lists, old(materialIndices)), pos, false)
    {
      var model := models[modelIds(pos) - 1];
      var submesh := GetSubmesh(materialIds(pos));
      var padded := PadLists(lists, submesh);
      var vs, ixs := CopyModel(model, pos, visibility(pos), translate, vertices, padded[submesh]);
      DrawVoxelOfParts(Job(atlas), Build(vertices, lists, old(materialIndices)), pos, false, (submesh, materialIndices), padded, Geometry(vs, ixs));
      vertices' := vs;
      lists' := padded[submesh := ixs];
    }

    /**
      `Execute`: every cell of the region in index order, then the index buffer. The vertex
      list, the index buffer and the submesh descriptors are what the job hands to the mesh.
    */
    method Execute(ghost atlas: seq<seq<Segment<V>>>) returns (vertices: seq<V>, indexBuffer: array<int>, descriptors: seq<SubMeshDescriptor>)
      requires Ready(Job(atlas)) && Holds(atlas)
      modifies this
      ensures fresh(indexBuffer)
      ensures InRegion(Job(atlas), Cells(region))
      ensures var b := BuildOver(Job(atlas), Start(old(materialIndices)), Cells(region), false);
        && vertices == b.vertices && materialIndices == b.materials
        && indexBuffer[..] == Concat(b.lists) && descriptors == Descriptors(b.lists)
    {
      ghost var cells := Cells(region);
      CellsInRegion(region);
      vertices := [];
      var lists: seq<seq<int>> := [];
      var i := 0;
      while i < Length(region)
        invariant 0 <= i <= Length(region)
        invariant Build(vertices, lists, materialIndices) == BuildOver(Job(atlas), Start(old(materialIndices)), cells[..i], false)
      {
        PositionFromIndexInRegion(region, i);
        var pos := PositionFromIndex(region, i).value;
        assert pos == cells[i];
        assert cells[..i + 1][..i] == cells[..i];
        var visibleSegments := visibility(pos);
        if visibleSegments == Seg.NoSegment {
          i := i + 1;
          continue;
        }
        var modelIndex := modelIds(pos) - 1;
        if modelIndex < 0 {
          i := i + 1;
          continue;
        }
        vertices, lists := DrawVoxelAt(atlas, pos, vertices, lists);
        i := i + 1;
      }
      assert cells[..i] == cells;
      indexBuffer, descriptors := WriteIndexBuffer(lists);
    }
  }
}
