/**
  The per-voxel visibility rule (Assets/BonesCubed/Common/Jobs/CalculateBlockOcclusion.cs): a
  solid voxel shows a face unless the neighbour across that face is solid and its model covers
  the facing side; it shows its centre part whenever it shows any face.

  The model-id grid (a `NativeInfiniteGrid3D<ushort>`, read only) is the function `modelIds`
  from positions to ids, 0 meaning empty and id `n` meaning `models[n - 1]`. The output grid
  (the write-only concurrent view of a `NativeGrid3D`) is an `UnsafeGrid3D` over the same region.
*/
module BlockOcclusion {
  import opened Wrappers
  import opened Coordinates
  import opened Regions
  import opened BlockModels
  import opened UnsafeGrids
  import D = CoreDirections
  import Seg = OccludingSegments

  /** Every id names a model or is 0 (empty). */
  ghost predicate IdsInRange<V>(models: seq<UnsafeBlockModel<V>>, modelIds: BlockPos -> int) {
    forall p :: 0 <= modelIds(p) <= |models|
  }

  /** `ModelIndexAt`: the model index of the voxel, -1 for an empty voxel. */
  function ModelIndexAt(modelIds: BlockPos -> int, pos: BlockPos): (r: int)
    requires 0 <= modelIds(pos)
    ensures -1 <= r && (r < 0 <==> modelIds(pos) == 0)
  {
    modelIds(pos) - 1
  }

  /** `OccludingSegmentFromDirection`: the face flag of a direction, compared by index; Center for any other. */
  function OccludingSegmentFromDirection(face: D.Direction): (r: Seg.Mask)
    ensures Seg.IsTag(r)
    ensures 0 <= face.index < 6 <==> Seg.IsFace(r)
  {
    if D.Same(face, D.North) then Seg.North
    else if D.Same(face, D.East) then Seg.East
    else if D.Same(face, D.South) then Seg.South
    else if D.Same(face, D.West) then Seg.West
    else if D.Same(face, D.Up) then Seg.Top
    else if D.Same(face, D.Down) then Seg.Bottom
    else Seg.Center
  }

  /** The six directions map to the six face flags one to one, and opposite directions to opposite faces. */
  lemma FaceFlagsOfDirections(k: int, j: int)
    requires 0 <= k < 6 && 0 <= j < 6
    ensures OccludingSegmentFromDirection(D.Named[k]) == Seg.TagBit(k)
    ensures OccludingSegmentFromDirection(D.Named[k]) == OccludingSegmentFromDirection(D.Named[j]) <==> k == j
  {
  }

  /** `IsFaceHidden`: the neighbour across `face` is solid and its model covers the side facing back. */
  function IsFaceHidden<V>(models: seq<UnsafeBlockModel<V>>, modelIds: BlockPos -> int, pos: BlockPos, face: D.Direction): (r: bool)
    requires IdsInRange(models, modelIds)
  {
    var neighbour := Add(pos, face.vector);
    var segment := OccludingSegmentFromDirection(D.Opposite(face));
    var modelIndex := ModelIndexAt(modelIds, neighbour);
    if modelIndex < 0 then false
    else models[modelIndex].occludingSegments & segment > 0
  }

  /** One face's contribution: its flag unless the face is hidden. */
  function FaceBit<V>(models: seq<UnsafeBlockModel<V>>, modelIds: BlockPos -> int, pos: BlockPos, face: D.Direction): Seg.Mask
    requires IdsInRange(models, modelIds)
  {
    if IsFaceHidden(models, modelIds, pos, face) then 0 else OccludingSegmentFromDirection(face)
  }

  /** `CalculateVisibleSegments`: the visible faces of a solid voxel, plus Center when any is visible. */
  function CalculateVisibleSegments<V>(models: seq<UnsafeBlockModel<V>>, modelIds: BlockPos -> int, pos: BlockPos): (r: Seg.Mask)
    requires IdsInRange(models, modelIds)
    ensures Seg.InEverything(r) && r != Seg.Center
  {
    if ModelIndexAt(modelIds, pos) < 0 then Seg.NoSegment
    else
      var segment := FaceBit(models, modelIds, pos, D.North)
        | FaceBit(models, modelIds, pos, D.East)
        | FaceBit(models, modelIds, pos, D.South)
        | FaceBit(models, modelIds, pos, D.West)
        | FaceBit(models, modelIds, pos, D.Up)
        | FaceBit(models, modelIds, pos, D.Down);
      if segment > 0 then segment | Seg.Center else segment
  }

  /** An empty voxel shows nothing. */
  lemma EmptyVoxelShowsNothing<V>(models: seq<UnsafeBlockModel<V>>, modelIds: BlockPos -> int, pos: BlockPos)
    requires IdsInRange(models, modelIds) && modelIds(pos) == 0
    ensures CalculateVisibleSegments(models, modelIds, pos) == Seg.NoSegment
  {
  }

  /** The six face flags of a visibility value, and the value rebuilt from them. */
  lemma FaceBitsDecide(b0: Seg.Mask, b1: Seg.Mask, b2: Seg.Mask, b3: Seg.Mask, b4: Seg.Mask, b5: Seg.Mask)
    requires b0 == 0 || b0 == Seg.North
    requires b1 == 0 || b1 == Seg.East
    requires b2 == 0 || b2 == Seg.South
    requires b3 == 0 || b3 == Seg.West
    requires b4 == 0 || b4 == Seg.Top
    requires b5 == 0 || b5 == Seg.Bottom
    ensures var s := b0 | b1 | b2 | b3 | b4 | b5;
      && (s & Seg.North != 0 <==> b0 != 0) && (s & Seg.East != 0 <==> b1 != 0)
      && (s & Seg.South != 0 <==> b2 != 0) && (s & Seg.West != 0 <==> b3 != 0)
      && (s & Seg.Top != 0 <==> b4 != 0) && (s & Seg.Bottom != 0 <==> b5 != 0)
      && (s > 0 <==> b0 != 0 || b1 != 0 || b2 != 0 || b3 != 0 || b4 != 0 || b5 != 0)
      && s & Seg.Center == 0
  {
  }

  /** The visibility of a solid voxel: the six face contributions, plus Center when any is set. */
  lemma SolidVisibility<V>(models: seq<UnsafeBlockModel<V>>, modelIds: BlockPos -> int, pos: BlockPos,
                           b0: Seg.Mask, b1: Seg.Mask, b2: Seg.Mask, b3: Seg.Mask, b4: Seg.Mask, b5: Seg.Mask)
    requires IdsInRange(models, modelIds) && ModelIndexAt(modelIds, pos) >= 0
    requires b0 == FaceBit(models, modelIds, pos, D.North) && b1 == FaceBit(models, modelIds, pos, D.East)
    requires b2 == FaceBit(models, modelIds, pos, D.South) && b3 == FaceBit(models, modelIds, pos, D.West)
    requires b4 == FaceBit(models, modelIds, pos, D.Up) && b5 == FaceBit(models, modelIds, pos, D.Down)
    ensures var s := b0 | b1 | b2 | b3 | b4 | b5;
      CalculateVisibleSegments(models, modelIds, pos) == if s > 0 then s | Seg.Center else s
  {
  }

  /**
    The face rule: direction k's flag is set exactly when the voxel is solid and the face toward
    direction k is not hidden.
  */
  lemma FaceVisibleRule<V>(models: seq<UnsafeBlockModel<V>>, modelIds: BlockPos -> int, pos: BlockPos, k: int)
    requires IdsInRange(models, modelIds) && 0 <= k < 6
    ensures CalculateVisibleSegments(models, modelIds, pos) & Seg.TagBit(k) != 0 <==>
      ModelIndexAt(modelIds, pos) >= 0 && !IsFaceHidden(models, modelIds, pos, D.Named[k])
  {
    if ModelIndexAt(modelIds, pos) >= 0 {
      var b0, b1, b2 := FaceBit(models, modelIds, pos, D.North), FaceBit(models, modelIds, pos, D.East), FaceBit(models, modelIds, pos, D.South);
      var b3, b4, b5 := FaceBit(models, modelIds, pos, D.West), FaceBit(models, modelIds, pos, D.Up), FaceBit(models, modelIds, pos, D.Down);
      SolidVisibility(models, modelIds, pos, b0, b1, b2, b3, b4, b5);
      FaceBitsDecide(b0, b1, b2, b3, b4, b5);
      var s := b0 | b1 | b2 | b3 | b4 | b5;
      CenterKeepsFace(s, Seg.TagBit(k));
      if k == 0 { assert Seg.TagBit(0) == Seg.North; }
      else if k == 1 { assert Seg.TagBit(1) == Seg.East; }
      else if k == 2 { assert Seg.TagBit(2) == Seg.South; }
      else if k == 3 { assert Seg.TagBit(3) == Seg.West; }
      else if k == 4 { assert Seg.TagBit(4) == Seg.Top; }
      else { assert Seg.TagBit(5) == Seg.Bottom; }
    }
  }

  /** Adding Center does not change a face flag. */
  lemma CenterKeepsFace(s: Seg.Mask, f: Seg.Mask)
    requires Seg.IsFace(f)
    ensures (s | Seg.Center) & f == s & f
  {
  }

  /** The index of the direction opposite to `D.Named[k]`. */
  function OppositeIndex(k: int): (r: int)
    requires 0 <= k < 6
    ensures 0 <= r < 6 && D.Opposite(D.Named[k]) == D.Named[r] && r != k
  {
    if k < 4 then (k + 2) % 4 else 9 - k
  }

  /**
    The hiding rule: the face toward direction k is hidden exactly when the neighbour there is
    solid and its model covers its own face toward the opposite direction, that is, back at `pos`.
  */
  lemma HiddenFaceRule<V>(models: seq<UnsafeBlockModel<V>>, modelIds: BlockPos -> int, pos: BlockPos, k: int)
    requires IdsInRange(models, modelIds) && 0 <= k < 6
    ensures var n := ModelIndexAt(modelIds, Add(pos, D.Named[k].vector));
      IsFaceHidden(models, modelIds, pos, D.Named[k]) <==>
        n >= 0 && models[n].occludingSegments & Seg.TagBit(OppositeIndex(k)) != 0
  {
    var j := OppositeIndex(k);
    var flag := OccludingSegmentFromDirection(D.Opposite(D.Named[k]));
    assert flag == OccludingSegmentFromDirection(D.Named[j]);
    FaceFlagsOfDirections(j, j);
    assert flag == Seg.TagBit(j);
  }

  /** The neighbour across the opposite face of the neighbour toward k is the voxel itself. */
  lemma NeighbourOfNeighbour(pos: BlockPos, k: int)
    requires 0 <= k < 6
    ensures Add(Add(pos, D.Named[k].vector), D.Named[OppositeIndex(k)].vector) == pos
  {
    D.OppositeOfNamed(D.Named[k]);
  }

  /** Two neighbouring voxels whose models cover every face hide the faces they share from each other. */
  lemma FullBlocksHideSharedFaces<V>(models: seq<UnsafeBlockModel<V>>, modelIds: BlockPos -> int, pos: BlockPos, k: int)
    requires IdsInRange(models, modelIds) && 0 <= k < 6
    requires modelIds(pos) != 0 && models[modelIds(pos) - 1].occludingSegments == Seg.Everything
    requires var n := Add(pos, D.Named[k].vector);
      modelIds(n) != 0 && models[modelIds(n) - 1].occludingSegments == Seg.Everything
    ensures CalculateVisibleSegments(models, modelIds, pos) & Seg.TagBit(k) == 0
    ensures CalculateVisibleSegments(models, modelIds, Add(pos, D.Named[k].vector)) & Seg.TagBit(OppositeIndex(k)) == 0
  {
    var j := OppositeIndex(k);
    var n := Add(pos, D.Named[k].vector);
    FaceVisibleRule(models, modelIds, pos, k);
    HiddenFaceRule(models, modelIds, pos, k);
    FaceVisibleRule(models, modelIds, n, j);
    HiddenFaceRule(models, modelIds, n, j);
    NeighbourOfNeighbour(pos, k);
    assert OppositeIndex(j) == k;
    Seg.TagsDisjoint(Seg.TagBit(j), Seg.TagBit(j));
    Seg.TagsDisjoint(Seg.TagBit(k), Seg.TagBit(k));
    EverythingCovers(Seg.TagBit(j));
    EverythingCovers(Seg.TagBit(k));
  }

  /** Every tag is inside `Everything`. */
  lemma EverythingCovers(f: Seg.Mask)
    requires Seg.IsTag(f)
    ensures Seg.Everything & f == f && f != 0
  {
  }

  /** The centre rule: Center is set exactly when some face flag is. */
  lemma CenterRule<V>(models: seq<UnsafeBlockModel<V>>, modelIds: BlockPos -> int, pos: BlockPos)
    requires IdsInRange(models, modelIds)
    ensures var r := CalculateVisibleSegments(models, modelIds, pos);
      r & Seg.Center != 0 <==> r & (Seg.Everything ^ Seg.Center) != 0
  {
    FaceBitsDecide(FaceBit(models, modelIds, pos, D.North), FaceBit(models, modelIds, pos, D.East),
                   FaceBit(models, modelIds, pos, D.South), FaceBit(models, modelIds, pos, D.West),
                   FaceBit(models, modelIds, pos, D.Up), FaceBit(models, modelIds, pos, D.Down));
  }

  /** A solid voxel whose six neighbours are all empty shows everything. */
  lemma IsolatedVoxelShowsEverything<V>(models: seq<UnsafeBlockModel<V>>, modelIds: BlockPos -> int, pos: BlockPos)
    requires IdsInRange(models, modelIds) && modelIds(pos) != 0
    requires forall k :: 0 <= k < 6 ==> modelIds(Add(pos, D.Named[k].vector)) == 0
    ensures CalculateVisibleSegments(models, modelIds, pos) == Seg.Everything
  {
    assert modelIds(Add(pos, D.Named[0].vector)) == 0;
    assert modelIds(Add(pos, D.Named[1].vector)) == 0;
    assert modelIds(Add(pos, D.Named[2].vector)) == 0;
    assert modelIds(Add(pos, D.Named[3].vector)) == 0;
    assert modelIds(Add(pos, D.Named[4].vector)) == 0;
    assert modelIds(Add(pos, D.Named[5].vector)) == 0;
  }

  /** The rule reads the ids of the voxel and its six neighbours only. */
  lemma VisibilityIsLocal<V>(models: seq<UnsafeBlockModel<V>>, ids1: BlockPos -> int, ids2: BlockPos -> int, pos: BlockPos)
    requires IdsInRange(models, ids1) && IdsInRange(models, ids2)
    requires ids1(pos) == ids2(pos)
    requires forall k :: 0 <= k < 6 ==> ids1(Add(pos, D.Named[k].vector)) == ids2(Add(pos, D.Named[k].vector))
    ensures CalculateVisibleSegments(models, ids1, pos) == CalculateVisibleSegments(models, ids2, pos)
  {
    assert ids1(Add(pos, D.Named[0].vector)) == ids2(Add(pos, D.Named[0].vector));
    assert ids1(Add(pos, D.Named[1].vector)) == ids2(Add(pos, D.Named[1].vector));
    assert ids1(Add(pos, D.Named[2].vector)) == ids2(Add(pos, D.Named[2].vector));
    assert ids1(Add(pos, D.Named[3].vector)) == ids2(Add(pos, D.Named[3].vector));
    assert ids1(Add(pos, D.Named[4].vector)) == ids2(Add(pos, D.Named[4].vector));
    assert ids1(Add(pos, D.Named[5].vector)) == ids2(Add(pos, D.Named[5].vector));
  }

  /**
    `Execute(index)`: the voxel at the index's position in the output region gets its
    visibility (None for an empty voxel), and no other cell changes. An index outside the
    region is the IndexOutOfRangeException of `PositionFromIndex`.
  */
  method Execute<V>(models: seq<UnsafeBlockModel<V>>, modelIds: BlockPos -> int, visibility: UnsafeGrid3D<Seg.Mask>, index: int)
    returns (o: Outcome)
    requires IdsInRange(models, modelIds) && visibility.Valid() && visibility.IsCreated()
    modifies visibility.buffer
    ensures visibility.Valid() && visibility.buffer == old(visibility.buffer)
    ensures o.Pass? <==> 0 <= index < visibility.Length()
    ensures o.Fail? ==> o.error == IndexOutOfRange && visibility.buffer[..] == old(visibility.buffer[..])
    ensures o.Pass? ==> PositionFromIndex(visibility.region, index).Ok?
    ensures o.Pass? ==>
      visibility.GetElementAt(index) == Ok(CalculateVisibleSegments(models, modelIds, PositionFromIndex(visibility.region, index).value))
    ensures o.Pass? ==> forall j :: j != index ==> visibility.GetElementAt(j) == old(visibility.GetElementAt(j))
  {
    var p := PositionFromIndex(visibility.region, index);
    if p.Err? {
      return Fail(p.error);
    }
    var pos := p.value;
    if ModelIndexAt(modelIds, pos) < 0 {
      o := visibility.SetElementAt(index, Seg.NoSegment);
    } else {
      o := visibility.SetElementAt(index, CalculateVisibleSegments(models, modelIds, pos));
    }
  }
}
