/**
  A growable list of native containers (Assets/BonesCubed/Common/Native/NativeContainerList.cs).
  New elements are built in place by a spawner function at the next free slot; a full buffer
  is first reallocated at twice its capacity.

  The buffer is modelled slot by slot: `Some(x)` is a slot holding element `x`, `None` a slot of
  memory that no element has been written to (fresh from Malloc, or not copied on growth). An
  element occupies `elementSize` bytes (`SizeOf<T>()`), which matters only for how many
  elements a copy of a given number of bytes carries over.
*/
module ContainerLists {
  import opened Wrappers
  import opened NativeUtils
  import IntMath

  /** The slots after growth: a fresh buffer of `newCapacity` slots holding the first `copiedBytes` bytes of the old one. */
  function Grown<T>(contents: seq<Option<T>>, newCapacity: nat, copiedBytes: int, elementSize: int): (r: seq<Option<T>>)
    ensures |r| == newCapacity
  {
    seq(newCapacity, j => if 0 <= j < |contents| && (j + 1) * elementSize <= copiedBytes then contents[j] else None)
  }

  /** The byte count handed to MemCpy at line 195, as written: the element count. */
  function CopiedBytesAsWritten(count: int, elementSize: int): int {
    count
  }

  /** The byte count the growth needs: every element's bytes. */
  function CopiedBytes(count: int, elementSize: int): int {
    count * elementSize
  }

  /** Copying `count * elementSize` bytes carries every one of the first `count` elements over, and nothing else. */
  lemma GrowthPreservesElements<T>(contents: seq<Option<T>>, newCapacity: nat, count: int, elementSize: int)
    requires elementSize >= 1 && 0 <= count <= |contents| <= newCapacity
    ensures var r := Grown(contents, newCapacity, CopiedBytes(count, elementSize), elementSize);
      r[..count] == contents[..count] && forall j :: count <= j < newCapacity ==> r[j] == None
  {
    var r := Grown(contents, newCapacity, CopiedBytes(count, elementSize), elementSize);
    forall j | 0 <= j < newCapacity
      ensures r[j] == if j < count then contents[j] else None
    {
      if j < count {
        IntMath.MulMonotone(count, j + 1, elementSize);
      } else {
        IntMath.MulMonotone(j + 1, count + 1, elementSize);
      }
    }
  }

  /**
    Copying only `count` bytes loses the last element whenever an element is wider than one
    byte: its bytes end at `count * elementSize > count`.
  */
  lemma AsWrittenGrowthLosesLastElement<T>(contents: seq<Option<T>>, newCapacity: nat, count: int, elementSize: int)
    requires elementSize > 1 && 1 <= count <= |contents| <= newCapacity
    ensures Grown(contents, newCapacity, CopiedBytesAsWritten(count, elementSize), elementSize)[count - 1] == None
  {
    IntMath.MulMonotone(elementSize, 2, count);
  }

  /** Every slot below `count` holds an element. */
  predicate Filled<T>(contents: seq<Option<T>>, count: int) {
    0 <= count <= |contents| && forall j :: 0 <= j < count ==> contents[j].Some?
  }

  /** The elements of the filled prefix. */
  function Elements<T>(contents: seq<Option<T>>, count: int): (r: seq<T>)
    requires Filled(contents, count)
    ensures |r| == count && forall j :: 0 <= j < count ==> contents[j] == Some(r[j])
  {
    if count == 0 then [] else Elements(contents, count - 1) + [contents[count - 1].value]
  }

  class NativeContainerList<T> {
    /** The element buffer, `capacity` slots long. */
    var buffer: array<Option<T>>
    /** The cells behind `Capacity` and `Count`. */
    var capacity: int
    var count: int
    const allocator: Allocator
    /** `BuildNativeContainer`: the element the spawner writes for a slot index and allocator. */
    const spawner: (int, Allocator) -> T
    /** `SizeOf<T>()`. */
    const elementSize: int
    /** Whether `Dispose` has freed the storage and released the safety handle. */
    var disposed: bool
    /** The children disposed so far, in the order their `Dispose` ran. */
    var disposals: seq<T>

    ghost predicate Valid()
      reads this, buffer
    {
      && elementSize >= 1
      && 0 < capacity && 0 <= count <= capacity && buffer.Length == capacity
      && Filled(buffer[..], count)
    }

    /** The list's elements, slot 0 first. */
    function Contents(): (r: seq<T>)
      requires Valid()
      reads this, buffer
      ensures |r| == count
    {
      Elements(buffer[..], count)
    }

    /** The allocation half of the constructor, once its argument checks have passed. */
    constructor Allocate(capacity: int, spawner: (int, Allocator) -> T, allocator: Allocator, elementSize: int)
      requires capacity > 0 && elementSize >= 1
      ensures Valid() && !disposed && fresh(buffer)
      ensures this.capacity == capacity && count == 0 && disposals == []
      ensures this.spawner == spawner && this.allocator == allocator && this.elementSize == elementSize
    {
      this.capacity := capacity;
      count := 0;
      this.allocator := allocator;
      this.spawner := spawner;
      this.elementSize := elementSize;
      buffer := new Option<T>[capacity](_ => None);
      disposed := false;
      disposals := [];
    }

    /**
      `new NativeContainerList<T>(capacity, spawner, allocator)`: an ArgumentException for an
      unusable allocator or a capacity that is not positive; otherwise an empty list.
    */
    static method Create(capacity: int, spawner: (int, Allocator) -> T, allocator: Allocator, elementSize: int)
      returns (r: Result<NativeContainerList<T>>)
      requires elementSize >= 1
      ensures r.Ok? <==> UsableAllocator(allocator) && capacity > 0
      ensures r.Err? ==> r.error == InvalidArgument
      ensures r.Ok? ==> fresh(r.value) && fresh(r.value.buffer) && r.value.Valid() && !r.value.disposed
      ensures r.Ok? ==> r.value.GetCount() == Ok(0) && r.value.GetCapacity() == Ok(capacity) && r.value.Contents() == []
      ensures r.Ok? ==> r.value.spawner == spawner && r.value.allocator == allocator
    {
      if !UsableAllocator(allocator) {
        return Err(InvalidArgument);
      }
      if capacity <= 0 {
        return Err(InvalidArgument);
      }
      var l := new NativeContainerList.Allocate(capacity, spawner, allocator, elementSize);
      return Ok(l);
    }

    /** `Capacity`: an InvalidOperationException once disposed. */
    function GetCapacity(): (r: Result<int>)
      reads this
      ensures r.Ok? <==> !disposed
      ensures r.Ok? ==> r.value == capacity
      ensures r.Err? ==> r.error == InvalidOperation
    {
      if disposed then Err(InvalidOperation) else Ok(capacity)
    }

    /** `Count`: an InvalidOperationException once disposed. */
    function GetCount(): (r: Result<int>)
      reads this
      ensures r.Ok? <==> !disposed
      ensures r.Ok? ==> r.value == count
      ensures r.Err? ==> r.error == InvalidOperation
    {
      if disposed then Err(InvalidOperation) else Ok(count)
    }

    /** The indexer: an IndexOutOfRangeException unless 0 <= index < Count. */
    function Get(index: int): (r: Result<T>)
      requires Valid()
      reads this, buffer
      ensures r.Ok? <==> !disposed && 0 <= index < count
      ensures r.Ok? ==> r.value == Contents()[index]
      ensures r.Err? ==> r.error == (if disposed then InvalidOperation else IndexOutOfRange)
    {
      if disposed then Err(InvalidOperation)
      else if index < 0 || index >= count then Err(IndexOutOfRange)
      else Ok(buffer[index].value)
    }

    /**
      `SpawnNewInstance`: doubles the capacity when the list is full, then lets the spawner
      build the element at slot `Count` and counts it. The growth copies every element's
      bytes (see `CopiedBytes`); the copy as written is `CopiedBytesAsWritten`.
    */
    method SpawnNewInstance() returns (o: Outcome)
      requires Valid()
      modifies this, buffer
      ensures Valid() && disposed == old(disposed) && disposals == old(disposals)
      ensures o.Pass? <==> !old(disposed)
      ensures o.Fail? ==> o.error == InvalidOperation && count == old(count) && capacity == old(capacity) && buffer == old(buffer)
      ensures o.Pass? ==> count == old(count) + 1
      ensures o.Pass? ==> capacity == if old(count) == old(capacity) then 2 * old(capacity) else old(capacity)
      ensures o.Pass? ==> (old(count) < old(capacity) ==> buffer == old(buffer))
      ensures o.Pass? ==> Contents() == old(Contents()) + [spawner(old(count), allocator)]
    {
      if disposed {
        return Fail(InvalidOperation);
      }
      if count == capacity {
        Grow();
      }
      ghost var kept := buffer[..];
      buffer[count] := Some(spawner(count, allocator));
      count := count + 1;
      assert buffer[..count - 1] == kept[..count - 1];
      ElementsExtend(buffer[..], count - 1);
      PrefixElements(kept, buffer[..], count - 1);
      o := Pass;
    }

    /**
      The growth step of `SpawnNewInstance` on a full list: `Capacity *= 2`, a fresh buffer of
      the new capacity, the old elements copied into it (`CopiedBytes` of them), the old buffer freed.
    */
    method Grow()
      requires Valid() && count == capacity
      modifies this
      ensures Valid() && fresh(buffer) && capacity == 2 * old(capacity)
      ensures count == old(count) && disposed == old(disposed) && disposals == old(disposals)
      ensures buffer[..count] == old(buffer[..count])
      ensures Contents() == old(Contents())
    {
      capacity := capacity * 2;
      var newCapacity := capacity;
      var grown := Grown(buffer[..], newCapacity, CopiedBytes(count, elementSize), elementSize);
      GrowthPreservesElements(buffer[..], newCapacity, count, elementSize);
      ghost var previous := buffer[..];
      buffer := new Option<T>[newCapacity](j requires 0 <= j < newCapacity => grown[j]);
      assert buffer[..] == grown;
      assert buffer[..count] == previous[..count];
      PrefixElements(previous, buffer[..], count);
    }

    /**
      `Dispose`: disposes each of the `Count` children once, in index order, then frees the
      storage. A second call is an InvalidOperationException from the released safety handle.
    */
    method Dispose() returns (o: Outcome)
      requires Valid()
      modifies this
      ensures Valid() && disposed && count == old(count) && buffer == old(buffer)
      ensures o.Pass? <==> !old(disposed)
      ensures o.Fail? ==> o.error == InvalidOperation && disposals == old(disposals)
      ensures o.Pass? ==> disposals == old(disposals) + old(Contents())
    {
      if disposed {
        return Fail(InvalidOperation);
      }
      var i := 0;
      while i < count
        invariant Valid() && !disposed && count == old(count) && buffer == old(buffer)
        invariant buffer[..] == old(buffer[..])
        invariant 0 <= i <= count
        invariant disposals == old(disposals) + Elements(buffer[..], i)
      {
        disposals := disposals + [buffer[i].value];
        i := i + 1;
      }
      disposed := true;
      return Pass;
    }
  }

  /** Writing slot `count` of a filled prefix extends the elements by that value. */
  lemma ElementsExtend<T>(contents: seq<Option<T>>, count: int)
    requires 0 <= count && Filled(contents, count + 1)
    ensures Elements(contents, count + 1) == Elements(contents, count) + [contents[count].value]
  {
  }

  /** Two buffers agreeing on a filled prefix have the same elements there. */
  lemma {:induction false} PrefixElements<T>(a: seq<Option<T>>, b: seq<Option<T>>, count: int)
    requires Filled(a, count) && count <= |b| && a[..count] == b[..count]
    ensures Filled(b, count) && Elements(a, count) == Elements(b, count)
    decreases count
  {
    assert forall j :: 0 <= j < count ==> a[j] == a[..count][j] == b[..count][j] == b[j];
    if count > 0 {
      assert a[..count - 1] == b[..count - 1];
      PrefixElements(a, b, count - 1);
    }
  }
}
