/**
  Allocator kinds and the three validation helpers the containers call before every access
  (Assets/BonesCubed/Common/Utils/NativeUtils.cs). A validator that throws becomes a `Fail`
  outcome; since they are functions, none of them can change the container.
*/
module NativeUtils {
  import opened Wrappers
  import opened Coordinates
  import opened Regions

  /**
    Unity's allocator kinds with their enum values: Invalid 0, None 1, Temp 2, TempJob 3,
    Persistent 4. `NoAllocation` stands for `Allocator.None`.
  */
  datatype Allocator = Invalid | NoAllocation | Temp | TempJob | Persistent

  function AllocatorValue(a: Allocator): int {
    match a
    case Invalid => 0
    case NoAllocation => 1
    case Temp => 2
    case TempJob => 3
    case Persistent => 4
  }

  /** The constructors' test `allocator <= Allocator.None` fails exactly for Temp, TempJob and Persistent. */
  predicate UsableAllocator(a: Allocator) {
    !(AllocatorValue(a) <= AllocatorValue(NoAllocation))
  }

  /** `ValidateAllocation`: an InvalidOperationException unless the container is created. */
  function ValidateAllocation(isCreated: bool): (o: Outcome)
    ensures o.Pass? <==> isCreated
    ensures o.Fail? ==> o.error == InvalidOperation
  {
    if !isCreated then Fail(InvalidOperation) else Pass
  }

  /** `ValidateIndex`: an IndexOutOfRangeException unless 0 <= index < length. */
  function ValidateIndex(index: int, length: int): (o: Outcome)
    ensures o.Pass? <==> 0 <= index < length
    ensures o.Fail? ==> o.error == IndexOutOfRange
  {
    if index < 0 || index >= length then Fail(IndexOutOfRange) else Pass
  }

  /** `ValidatePosition`: an IndexOutOfRangeException unless the region contains the position. */
  function ValidatePosition(region: Region, pos: BlockPos): (o: Outcome)
    ensures o.Pass? <==> Contains(region, pos)
    ensures o.Fail? ==> o.error == IndexOutOfRange
  {
    if !Contains(region, pos) then Fail(IndexOutOfRange) else Pass
  }

  /** Only Temp, TempJob and Persistent are accepted by the containers. */
  lemma UsableAllocators(a: Allocator)
    ensures UsableAllocator(a) <==> a in {Temp, TempJob, Persistent}
  {
  }
}
