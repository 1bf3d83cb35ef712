/** The state machine of one registry entry (src/sharedObjectClass.cpp). */
module SharedObject {
  import opened Wrappers
  import opened OperatingSystem

  /** A mapped region: where it starts in this process, and the segment behind it. */
  datatype Region = Region(addr: Addr, seg: SegId)

  datatype Entry = Entry(handle: Option<SegId>, region: Option<Region>, ptr: Option<Addr>,
                         size: nat, ownData: bool)

  datatype EntryStep<+T> = EntryStep(os: Os, e: Entry, r: Result<T>)

  function NewEntry(n: nat): Entry {
    Entry(None, None, None, n, false)
  }

  // ---------- what the methods compute ----------

  function Allocated(os: Os, key: Key, e: Entry, fate: Fate): EntryStep<()> {
    if e.handle.Some? then
      EntryStep(os, e, Ok(()))
    else if key in os.names || fate.NoObject? then
      EntryStep(os, e, Err(AllocationFailed))
    else
      var n := if e.size > 0 then e.size else 1;
      var created := os.Create(key, n);
      if fate.NoSpace? then
        EntryStep(created.Remove(key), e, Err(AllocationFailed))
      else
        EntryStep(created, e.(handle := Some(os.next), size := n), Ok(()))
  }

  /** `addr` is where the operating system places the region when it grants it. */
  function Mapped(os: Os, key: Key, e: Entry, addr: Addr, granted: bool): EntryStep<Addr> {
    if e.ptr.Some? then
      EntryStep(os, e, Ok(e.ptr.value))
    else if e.region.Some? then
      EntryStep(os, e.(ptr := Some(e.region.value.addr)), Ok(e.region.value.addr))
    else if e.handle.None? && key !in os.names then
      EntryStep(os, e.(region := None, ptr := None), Err(MappingFailed))
    else
      var held := if e.handle.Some? then e
                    else e.(handle := Some(os.names[key]), size := os.SizeOf(os.names[key]));
      if granted then
        EntryStep(os, held.(region := Some(Region(addr, held.handle.value)), ptr := Some(addr)), Ok(addr))
      else
        EntryStep(os, held.(region := None, ptr := None), Err(MappingFailed))
  }

  function Unmapped(e: Entry): Entry {
    e.(region := None, ptr := None)
  }

  /** The destructor: handles are closed, and an owner also removes the name. */
  function Destroyed(os: Os, key: Key, e: Entry): Os {
    if e.ownData then os.Remove(key) else os
  }

  // ---------- what they keep ----------

  /** Pointer implies region implies handle, and a held segment has the recorded size. */
  ghost predicate Consistent(os: Os, e: Entry) {
    && (e.ptr.Some? ==> e.region.Some? && e.region.value.addr == e.ptr.value)
    && (e.region.Some? ==> e.ptr.Some? && e.handle == Some(e.region.value.seg))
    && (e.handle.Some? ==> e.handle.value in os.segments && |os.segments[e.handle.value]| == e.size)
  }

  lemma AllocatedConsistent(os: Os, key: Key, e: Entry, fate: Fate)
    requires os.Valid() && Consistent(os, e)
    ensures var s := Allocated(os, key, e, fate);
            && s.os.Valid() && Extends(os, s.os) && Consistent(s.os, s.e)
            && (forall seg :: seg in os.segments ==> s.os.segments[seg] == os.segments[seg])
            && (forall k :: k != key ==> (k in s.os.names <==> k in os.names))
            && (forall k :: k in os.names ==> k in s.os.names && s.os.names[k] == os.names[k])
            && (s.r.Ok? <==> e.handle.Some? || (key !in os.names && fate.Granted?))
            && (s.r.Ok? ==> s.e.handle.Some? && s.e.size >= e.size)
            && (s.r.Err? ==> s.os.names == os.names && s.e == e)
  {
    var s := Allocated(os, key, e, fate);
    if s.r.Err? && s.os != os {
      assert s.os.names == os.names;
    }
  }

  lemma MappedConsistent(os: Os, key: Key, e: Entry, addr: Addr, granted: bool)
    requires os.Valid() && Consistent(os, e)
    ensures var s := Mapped(os, key, e, addr, granted);
            && s.os == os && Consistent(os, s.e)
            && (s.r.Ok? <==> e.region.Some? || (granted && (e.handle.Some? || key in os.names)))
            && (s.r.Ok? <==> s.e.region.Some?)
            && (s.r.Ok? ==> s.r.value == s.e.region.value.addr)
            && (e.handle.Some? ==> s.e.handle == e.handle)
            && (e.region.Some? ==> s.e.region == e.region)
            && (e.handle.None? && s.e.handle.Some? ==> key in os.names && s.e.handle.value == os.names[key])
  {
  }

  // ---------- the class ----------

  class SharedObjectClass {
    const key: Key
    var sharedMemoryHandle: Option<SegId>
    var mappedRegionHandle: Option<Region>
    var sharedPtr: Option<Addr>
    var size: nat
    var ownData: bool

    function Abs(): Entry
      reads this
    {
      Entry(sharedMemoryHandle, mappedRegionHandle, sharedPtr, size, ownData)
    }

    constructor (key: Key, sizeInByte: nat)
      ensures Abs() == NewEntry(sizeInByte) && this.key == key
    {
      this.key := key;
      sharedMemoryHandle, mappedRegionHandle, sharedPtr := None, None, None;
      size, ownData := sizeInByte, false;
    }

    method OpenSharedMemoryHandle(table: SystemTable) returns (r: Result<()>)
      modifies this`sharedMemoryHandle, this`size
      ensures r.Ok? <==> old(sharedMemoryHandle).None? && key in table.state.names
      ensures r.Err? ==> r.error == if old(sharedMemoryHandle).Some? then AlreadyOpen else MappingFailed
      ensures r.Ok? ==> sharedMemoryHandle == Some(table.state.names[key])
                        && size == table.state.SizeOf(table.state.names[key])
      ensures r.Err? ==> Abs() == old(Abs())
    {
      if sharedMemoryHandle.Some? {
        return Err(AlreadyOpen);
      }
      if key !in table.state.names {
        sharedMemoryHandle := None;
        return Err(MappingFailed);
      }
      var seg := table.state.names[key];
      sharedMemoryHandle, size := Some(seg), table.state.SizeOf(seg);
      r := Ok(());
    }

    method AllocateSharedMemory(table: SystemTable, fate: Fate) returns (r: Result<()>)
      modifies this, table
      ensures EntryStep(table.state, Abs(), r) == Allocated(old(table.state), key, old(Abs()), fate)
    {
      if sharedMemoryHandle.Some? {
        return Ok(());
      }
      if key in table.state.names || fate.NoObject? {
        return Err(AllocationFailed);
      }
      var n := if size > 0 then size else 1;
      sharedMemoryHandle := Some(table.state.next);
      table.state := table.state.Create(key, n);
      if fate.NoSpace? {
        table.state := table.state.Remove(key);
        sharedMemoryHandle := None;
        return Err(AllocationFailed);
      }
      size := n;
      r := Ok(());
    }

    method MapSharedMemory(table: SystemTable, addr: Addr, granted: bool) returns (r: Result<Addr>)
      modifies this
      ensures EntryStep(table.state, Abs(), r) == Mapped(old(table.state), key, old(Abs()), addr, granted)
    {
      if sharedPtr.Some? {
        return Ok(sharedPtr.value);
      }
      if mappedRegionHandle.Some? {
        sharedPtr := Some(mappedRegionHandle.value.addr);
        return Ok(sharedPtr.value);
      }
      if sharedMemoryHandle.None? {
        var open := OpenSharedMemoryHandle(table);
        if open.Err? {
          mappedRegionHandle, sharedPtr := None, None;
          return Err(MappingFailed);
        }
      }
      if !granted {
        mappedRegionHandle, sharedPtr := None, None;
        return Err(MappingFailed);
      }
      mappedRegionHandle := Some(Region(addr, sharedMemoryHandle.value));
      sharedPtr := Some(addr);
      r := Ok(addr);
    }

    method UnmapSharedMemory()
      modifies this
      ensures Abs() == Unmapped(old(Abs()))
      ensures mappedRegionHandle.None? && sharedPtr.None?
      ensures sharedMemoryHandle == old(sharedMemoryHandle) && size == old(size) && ownData == old(ownData)
    {
      mappedRegionHandle, sharedPtr := None, None;
    }

    /** The destructor's work. */
    method FreeSharedMemory(table: SystemTable)
      modifies this, table
      ensures table.state == Destroyed(old(table.state), key, old(Abs()))
      ensures Abs() == Unmapped(old(Abs())).(handle := None)
      ensures sharedMemoryHandle.None? && mappedRegionHandle.None? && sharedPtr.None?
    {
      mappedRegionHandle, sharedPtr := None, None;
      sharedMemoryHandle := None;
      if ownData {
        table.state := table.state.Remove(key);
      }
    }

    method SetOwnership(own: bool)
      modifies this
      ensures Abs() == old(Abs()).(ownData := own)
    {
      ownData := own;
    }
  }
}
