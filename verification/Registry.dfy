/**
  One process's registry of shared memory (src/sharedMemory.cpp): the entries it lists and how
  often each key is mapped.
 */
module SharedMemoryRegistry {
  import opened Wrappers
  import opened OperatingSystem
  import opened SharedObject

  datatype Registry = Registry(list: map<Key, Entry>, counter: map<Key, int>) {

    /** A counter that was never set reads as zero. */
    function Count(key: Key): int {
      if key in counter then counter[key] else 0
    }

    predicate HasRegion(key: Key) {
      key in list && list[key].region.Some?
    }
  }

  datatype RegistryStep<+T> = RegistryStep(os: Os, reg: Registry, r: Result<T>)

  const EMPTY_REGISTRY := Registry(map[], map[])

  // ---------- what the operations compute ----------

  /** The registry in which `key` is listed, with entry `e` if it was not. */
  function Listed(reg: Registry, key: Key, e: Entry): Registry {
    if key in reg.list then reg else reg.(list := reg.list[key := e])
  }

  function Allocate(os: Os, reg: Registry, key: Key, n: nat, fate: Fate): RegistryStep<()> {
    if key in reg.list && reg.list[key].size < n then
      RegistryStep(os, reg, Err(TooSmall))
    else
      var l := Listed(reg, key, NewEntry(n));
      var s := Allocated(os, key, l.list[key], fate);
      RegistryStep(s.os, l.(list := l.list[key := s.e]), s.r)
  }

  function Bumped(reg: Registry, key: Key, delta: int): Registry {
    reg.(counter := reg.counter[key := reg.Count(key) + delta])
  }

  function Map(os: Os, reg: Registry, key: Key, addr: Addr, granted: bool): RegistryStep<Addr> {
    var l := if key in reg.list then reg
             else Listed(reg, key, NewEntry(0)).(counter := reg.counter[key := 0]);
    var s := Mapped(os, key, l.list[key], addr, granted);
    var m := l.(list := l.list[key := s.e]);
    RegistryStep(s.os, if s.r.Ok? then Bumped(m, key, 1) else m, s.r)
  }

  function Unmap(os: Os, reg: Registry, key: Key): RegistryStep<()> {
    if key !in reg.list then
      RegistryStep(os, reg, Ok(()))
    else
      var b := Bumped(reg, key, -1);
      if b.Count(key) <= 0 then
        RegistryStep(Destroyed(os, key, Unmapped(b.list[key])), b.(list := b.list - {key}), Ok(()))
      else
        RegistryStep(os, b, Ok(()))
  }

  function Free(os: Os, reg: Registry, key: Key): RegistryStep<()> {
    if key in reg.list then
      RegistryStep(Destroyed(os, key, reg.list[key]).Remove(key),
                   Registry(reg.list - {key}, reg.counter - {key}), Ok(()))
    else
      RegistryStep(os.Remove(key), reg, Ok(()))
  }

  function AutoRelease(os: Os, reg: Registry, key: Key, own: bool): RegistryStep<()> {
    if key !in reg.list then
      RegistryStep(os, reg, Err(NotMapped))
    else
      RegistryStep(os, reg.(list := reg.list[key := reg.list[key].(ownData := own)]), Ok(()))
  }

  // ---------- reachable entries ----------

  ghost predicate Healthy(os: Os, reg: Registry) {
    os.Valid() && forall k :: k in reg.list ==> Consistent(os, reg.list[k])
  }

  /** Another process changed the operating system's state: this registry is still healthy. */
  lemma HealthySurvives(before: Os, after: Os, reg: Registry)
    requires Healthy(before, reg) && Extends(before, after) && after.Valid()
    ensures Healthy(after, reg)
  {
  }

  lemma AllocateHealthy(os: Os, reg: Registry, key: Key, n: nat, fate: Fate)
    requires Healthy(os, reg)
    ensures var s := Allocate(os, reg, key, n, fate);
            Healthy(s.os, s.reg) && Extends(os, s.os)
  {
    if !(key in reg.list && reg.list[key].size < n) {
      var e := if key in reg.list then reg.list[key] else NewEntry(n);
      AllocatedConsistent(os, key, e, fate);
      HealthySurvives(os, Allocated(os, key, e, fate).os, reg);
    }
  }

  lemma MapHealthy(os: Os, reg: Registry, key: Key, addr: Addr, granted: bool)
    requires Healthy(os, reg)
    ensures var s := Map(os, reg, key, addr, granted);
            Healthy(s.os, s.reg) && s.os == os
  {
    var e := if key in reg.list then reg.list[key] else NewEntry(0);
    MappedConsistent(os, key, e, addr, granted);
  }

  // ---------- what a call on one key leaves alone ----------

  /** Key `k` has the same entry, counter and name after the step as before. */
  ghost predicate SameAt(os: Os, reg: Registry, os': Os, reg': Registry, k: Key) {
    && (k in reg'.list <==> k in reg.list)
    && (k in reg.list ==> reg'.list[k] == reg.list[k])
    && reg'.Count(k) == reg.Count(k)
    && (k in os'.names <==> k in os.names)
    && (k in os.names ==> os'.names[k] == os.names[k])
  }

  lemma AllocateFrame(os: Os, reg: Registry, key: Key, n: nat, fate: Fate, k: Key)
    requires Healthy(os, reg) && k != key
    ensures var s := Allocate(os, reg, key, n, fate); SameAt(os, reg, s.os, s.reg, k)
  {
    if !(key in reg.list && reg.list[key].size < n) {
      AllocatedNames(os, key, Listed(reg, key, NewEntry(n)).list[key], fate, k);
    }
  }

  lemma AllocatedNames(os: Os, key: Key, e: Entry, fate: Fate, k: Key)
    requires k != key
    ensures var s := Allocated(os, key, e, fate).os;
            (k in s.names <==> k in os.names) && (k in os.names ==> s.names[k] == os.names[k])
  {
  }

  lemma MapFrame(os: Os, reg: Registry, key: Key, addr: Addr, granted: bool, k: Key)
    requires Healthy(os, reg) && k != key
    ensures var s := Map(os, reg, key, addr, granted); SameAt(os, reg, s.os, s.reg, k)
  {
    var e := if key in reg.list then reg.list[key] else NewEntry(0);
    MappedConsistent(os, key, e, addr, granted);
  }

  lemma UnmapFrame(os: Os, reg: Registry, key: Key, k: Key)
    requires k != key
    ensures var s := Unmap(os, reg, key); SameAt(os, reg, s.os, s.reg, k)
  {
  }

  lemma FreeFrame(os: Os, reg: Registry, key: Key, k: Key)
    requires k != key
    ensures var s := Free(os, reg, key); SameAt(os, reg, s.os, s.reg, k)
  {
  }

  lemma AutoReleaseFrame(os: Os, reg: Registry, key: Key, own: bool, k: Key)
    requires k != key
    ensures var s := AutoRelease(os, reg, key, own); SameAt(os, reg, s.os, s.reg, k)
  {
  }

  /** After an allocation that succeeds, however often it is repeated and whatever earlier calls
      left behind, the key holds a segment of the recorded size, and that is what was asked for
      or more. */
  lemma AllocateGivesRoom(os: Os, reg: Registry, key: Key, n: nat, fate: Fate)
    requires Healthy(os, reg)
    ensures var s := Allocate(os, reg, key, n, fate);
            s.r.Ok? ==>
              && key in s.reg.list && s.reg.list[key].handle.Some?
              && var e := s.reg.list[key];
                 && e.size >= n
                 && e.handle.value in s.os.segments
                 && |s.os.segments[e.handle.value]| == e.size
  {
    if !(key in reg.list && reg.list[key].size < n) {
      var e := if key in reg.list then reg.list[key] else NewEntry(n);
      AllocatedConsistent(os, key, e, fate);
    }
  }

  /** An allocation makes a new segment exactly when the key holds none yet, no process uses the
      name, and the system grants it. A listed key that still holds a segment is handed out
      again, even when its name is gone: that is why an id must never be reused while some
      process lists it. */
  lemma AllocateMakesSegment(os: Os, reg: Registry, key: Key, n: nat, fate: Fate)
    requires Healthy(os, reg)
    ensures var s := Allocate(os, reg, key, n, fate);
            var fits := key in reg.list ==> reg.list[key].size >= n;
            var holds := key in reg.list && reg.list[key].handle.Some?;
            && (s.r.Ok? <==> fits && (holds || (key !in os.names && fate.Granted?)))
            && (s.r.Err? ==> s.r.error == if fits then AllocationFailed else TooSmall)
            && (s.r.Ok? && s.os != os <==> fits && !holds && key !in os.names && fate.Granted?)
            && (s.r.Ok? && holds ==> s.os == os && s.reg.list[key] == reg.list[key])
            && (s.r.Ok? && !holds ==> s.os.names == os.names[key := os.next]
                                      && s.reg.list[key].handle == Some(os.next))
  {
    if !(key in reg.list && reg.list[key].size < n) {
      var e := if key in reg.list then reg.list[key] else NewEntry(n);
      AllocatedConsistent(os, key, e, fate);
      if e.handle.None? && key !in os.names && fate.Granted? {
        assert Allocated(os, key, e, fate).os.next != os.next;
      }
    }
  }

  /** A freed key is forgotten: not listed, not counted, not named; no segment is touched. So the
      key can be allocated again, with any size, exactly if the system grants it. */
  lemma FreeForgets(os: Os, reg: Registry, key: Key, n: nat, fate: Fate)
    requires Healthy(os, reg)
    ensures var s := Free(os, reg, key);
            && key !in s.os.names && key !in s.reg.list && (key in reg.list ==> key !in s.reg.counter)
            && s.os.segments == os.segments && s.os.next == os.next && Healthy(s.os, s.reg)
            && (Allocate(s.os, s.reg, key, n, fate).r.Ok? <==> fate.Granted?)
  {
  }

  /** Ownership is what decides on the name: the call fails exactly if the key is not listed, and
      then changes nothing; otherwise the last unmap removes the name if and only if the process
      was made the owner. */
  lemma OwnershipDecidesOnTheName(os: Os, reg: Registry, key: Key, own: bool)
    ensures var s := AutoRelease(os, reg, key, own);
            && s.os == os && (s.r.Err? <==> key !in reg.list) && (s.r.Err? ==> s.reg == reg && s.r.error == NotMapped)
            && (s.r.Ok? && reg.Count(key) <= 1 ==>
                  var u := Unmap(os, s.reg, key);
                  && key !in u.reg.list && u.os.segments == os.segments
                  && u.os.names == if own then os.names - {key} else os.names)
  {
  }

  /** A mapping fails in one way only. */
  lemma MapFailsWith(os: Os, reg: Registry, key: Key, addr: Addr, granted: bool)
    ensures var s := Map(os, reg, key, addr, granted); s.r.Err? ==> s.r.error == MappingFailed
  {
  }

  /** Should two processes be given the same id, and both find it unused, the first allocation
      takes the name and the second fails: they do not share the segment. */
  lemma SecondAllocationFails(os: Os, mine: Registry, theirs: Registry, key: Key, n: nat, m: nat, fate: Fate)
    requires Healthy(os, mine) && Healthy(os, theirs)
    requires key !in os.names && key !in mine.list && key !in theirs.list
    ensures var first := Allocate(os, mine, key, n, Granted);
            var second := Allocate(first.os, theirs, key, m, fate);
            && first.r.Ok? && second.r.Err? && second.os == first.os
            && key in second.reg.list && second.reg.list[key].handle.None?
  {
    AllocatedConsistent(os, key, NewEntry(n), Granted);
  }

  /** A failed map of a name that does not exist leaves an entry of size zero: from then on only
      an allocation of zero bytes can succeed under that key. */
  lemma FailedMapBlocksAllocate(os: Os, reg: Registry, key: Key, addr: Addr, n: nat)
    requires Healthy(os, reg) && key !in reg.list && key !in os.names
    ensures var failed := Map(os, reg, key, addr, true);
            && failed.r.Err? && key in failed.reg.list
            && (Allocate(failed.os, failed.reg, key, n, Granted).r.Ok? <==> n == 0)
  {
    var failed := Map(os, reg, key, addr, true);
    MapHealthy(os, reg, key, addr, true);
    AllocateMakesSegment(os, failed.reg, key, n, Granted);
  }

  // ---------- the process-wide variables and the calls that update them ----------

  class ProcessRegistry {
    const table: SystemTable
    var sharedObjectList: map<Key, SharedObjectClass>
    var mapCounter: map<Key, int>

    ghost predicate Valid()
      reads this, sharedObjectList.Values
    {
      forall k :: k in sharedObjectList ==> sharedObjectList[k].key == k
    }

    function Abs(): Registry
      reads this, sharedObjectList.Values
    {
      Registry(map k | k in sharedObjectList :: sharedObjectList[k].Abs(), mapCounter)
    }

    constructor (table: SystemTable)
      ensures Valid() && Abs() == EMPTY_REGISTRY && this.table == table
    {
      this.table := table;
      sharedObjectList, mapCounter := map[], map[];
    }

    method List(key: Key, sizeInByte: nat)
      requires Valid()
      modifies this`sharedObjectList
      ensures Valid() && key in sharedObjectList
      ensures forall o :: o in sharedObjectList.Values ==> o in old(sharedObjectList.Values) || fresh(o)
      ensures Abs() == Listed(old(Abs()), key, NewEntry(sizeInByte))
    {
      if key !in sharedObjectList {
        var so := new SharedObjectClass(key, sizeInByte);
        sharedObjectList := sharedObjectList[key := so];
      }
    }

    method Bump(key: Key, delta: int)
      requires Valid()
      modifies this`mapCounter
      ensures Valid() && Abs() == Bumped(old(Abs()), key, delta)
    {
      mapCounter := mapCounter[key := (if key in mapCounter then mapCounter[key] else 0) + delta];
    }

    method ResetCount(key: Key)
      requires Valid()
      modifies this`mapCounter
      ensures Valid() && Abs() == old(Abs()).(counter := old(Abs()).counter[key := 0])
    {
      mapCounter := mapCounter[key := 0];
    }

    method AllocateListed(key: Key, fate: Fate) returns (r: Result<()>)
      requires Valid() && key in sharedObjectList
      modifies sharedObjectList[key], table
      ensures Valid()
      ensures var s := Allocated(old(table.state), key, old(Abs()).list[key], fate);
              && r == s.r && table.state == s.os
              && Abs() == old(Abs()).(list := old(Abs()).list[key := s.e])
    {
      r := sharedObjectList[key].AllocateSharedMemory(table, fate);
    }

    method MapListed(key: Key, addr: Addr, granted: bool) returns (r: Result<Addr>)
      requires Valid() && key in sharedObjectList
      modifies sharedObjectList[key]
      ensures Valid()
      ensures var s := Mapped(table.state, key, old(Abs()).list[key], addr, granted);
              && r == s.r && table.state == s.os
              && Abs() == old(Abs()).(list := old(Abs()).list[key := s.e])
    {
      r := sharedObjectList[key].MapSharedMemory(table, addr, granted);
    }

    method AllocateSharedMemoryInternal(key: Key, sizeInByte: nat, fate: Fate) returns (r: Result<()>)
      requires Valid()
      modifies this`sharedObjectList, sharedObjectList.Values, table
      ensures Valid()
      ensures RegistryStep(table.state, Abs(), r) == Allocate(old(table.state), old(Abs()), key, sizeInByte, fate)
    {
      if key in sharedObjectList && sharedObjectList[key].size < sizeInByte {
        assert Abs().list[key].size < sizeInByte;
        return Err(TooSmall);
      }
      List(key, sizeInByte);
      r := AllocateListed(key, fate);
    }

    method MapSharedMemoryInternal(key: Key, addr: Addr, granted: bool) returns (r: Result<Addr>)
      requires Valid()
      modifies this, sharedObjectList.Values
      ensures Valid()
      ensures RegistryStep(table.state, Abs(), r) == Map(old(table.state), old(Abs()), key, addr, granted)
    {
      if key !in sharedObjectList {
        List(key, 0);
        ResetCount(key);
      }
      r := MapListed(key, addr, granted);
      if r.Ok? {
        Bump(key, 1);
      }
    }

    /** The entry is unmapped and destroyed. */
    method EraseUnmapped(key: Key)
      requires Valid() && key in sharedObjectList
      modifies this`sharedObjectList, sharedObjectList[key], table
      ensures Valid()
      ensures Abs() == old(Abs()).(list := old(Abs()).list - {key})
      ensures table.state == Destroyed(old(table.state), key, Unmapped(old(Abs()).list[key]))
    {
      var so := sharedObjectList[key];
      so.UnmapSharedMemory();
      so.FreeSharedMemory(table);
      sharedObjectList := sharedObjectList - {key};
    }

    method UnmapSharedMemoryInternal(key: Key)
      requires Valid()
      modifies this, sharedObjectList.Values, table
      ensures Valid()
      ensures RegistryStep(table.state, Abs(), Ok(())) == Unmap(old(table.state), old(Abs()), key)
    {
      if key in sharedObjectList {
        Bump(key, -1);
        if mapCounter[key] <= 0 {
          EraseUnmapped(key);
        }
      }
    }

    method FreeSharedMemoryInternal(key: Key)
      requires Valid()
      modifies this, sharedObjectList.Values, table
      ensures Valid()
      ensures RegistryStep(table.state, Abs(), Ok(())) == Free(old(table.state), old(Abs()), key)
    {
      if key in sharedObjectList {
        sharedObjectList[key].FreeSharedMemory(table);
        sharedObjectList := sharedObjectList - {key};
        mapCounter := mapCounter - {key};
      }
      table.state := table.state.Remove(key);
    }

    method AutoReleaseAfterUse(key: Key, releaseAfterUse: bool) returns (r: Result<()>)
      requires Valid()
      modifies sharedObjectList.Values
      ensures Valid()
      ensures RegistryStep(table.state, Abs(), r) == AutoRelease(old(table.state), old(Abs()), key, releaseAfterUse)
    {
      if key !in sharedObjectList {
        return Err(NotMapped);
      }
      sharedObjectList[key].SetOwnership(releaseAfterUse);
      r := Ok(());
    }
  }
}
