/**
  One process's registry over whole runs of calls, interleaved with what other processes do.
  The registry refines the multiset of mappings the client still has to give back.
 */
module RegistryClient {
  import opened Wrappers
  import opened OperatingSystem
  import opened SharedObject
  import opened SharedMemoryRegistry

  datatype Call =
    | CallAllocate(key: Key, n: nat, fate: Fate)
    | CallMap(key: Key, addr: Addr, granted: bool)
    | CallUnmap(key: Key)
    | CallFree(key: Key)
    | CallOwn(key: Key, own: bool)
    | Others(os: Os)                // other processes moved the system on to this state

  /** `out` is the multiset of outstanding mappings: one per successful map, less one per unmap. */
  datatype Client = Client(os: Os, reg: Registry, out: multiset<Key>)

  ghost predicate Possible(c: Client, call: Call) {
    && c.os.Valid()
    && (call.Others? ==> call.os.Valid() && Extends(c.os, call.os))
  }

  function After(c: Client, call: Call): Client {
    match call
    case CallAllocate(key, n, fate) =>
      var s := Allocate(c.os, c.reg, key, n, fate); Client(s.os, s.reg, c.out)
    case CallMap(key, addr, granted) =>
      var s := Map(c.os, c.reg, key, addr, granted);
      Client(s.os, s.reg, if s.r.Ok? then c.out + multiset{key} else c.out)
    case CallUnmap(key) =>
      var s := Unmap(c.os, c.reg, key); Client(s.os, s.reg, c.out - multiset{key})
    case CallFree(key) =>
      var s := Free(c.os, c.reg, key); Client(s.os, s.reg, c.out)
    case CallOwn(key, own) =>
      var s := AutoRelease(c.os, c.reg, key, own); Client(s.os, s.reg, c.out)
    case Others(os) =>
      c.(os := os)
  }

  // ---------- the refinement ----------

  /** The counter is the number of outstanding mappings, and a region is mapped exactly when
      that number is positive. */
  ghost predicate TracksKey(reg: Registry, out: multiset<Key>, k: Key) {
    reg.Count(k) == out[k] && (reg.HasRegion(k) <==> k in out)
  }

  ghost predicate Tracks(c: Client) {
    forall k :: TracksKey(c.reg, c.out, k)
  }

  /** What a caller has to check: unmap only what is mapped (or not listed at all), and never
      free a key that is still mapped. */
  ghost predicate Disciplined(c: Client, call: Call) {
    match call
    case CallUnmap(key) => key in c.out || key !in c.reg.list
    case CallFree(key) => key !in c.out
    case _ => true
  }

  lemma CallKeepsHealthy(c: Client, call: Call)
    requires Healthy(c.os, c.reg) && Possible(c, call)
    ensures Healthy(After(c, call).os, After(c, call).reg)
  {
    match call
    case CallAllocate(key, n, fate) => AllocateHealthy(c.os, c.reg, key, n, fate);
    case CallMap(key, addr, granted) => MapHealthy(c.os, c.reg, key, addr, granted);
    case _ =>
  }

  /** A call touches nothing but its own key: every other key keeps its entry, its counter and
      its outstanding mappings. */
  lemma CallFrame(c: Client, call: Call, k: Key)
    requires Healthy(c.os, c.reg) && Possible(c, call) && (call.Others? || call.key != k)
    ensures var d := After(c, call);
            d.out[k] == c.out[k] && SameAt(c.os, c.reg, if call.Others? then c.os else d.os, d.reg, k)
  {
    match call
    case CallAllocate(key, n, fate) => AllocateFrame(c.os, c.reg, key, n, fate, k);
    case CallMap(key, addr, granted) => MapFrame(c.os, c.reg, key, addr, granted, k);
    case CallUnmap(key) => UnmapFrame(c.os, c.reg, key, k);
    case CallFree(key) => FreeFrame(c.os, c.reg, key, k);
    case CallOwn(key, own) => AutoReleaseFrame(c.os, c.reg, key, own, k);
    case Others(os) =>
  }

  lemma AllocateTracks(os: Os, reg: Registry, out: multiset<Key>, key: Key, n: nat, fate: Fate)
    requires Healthy(os, reg) && TracksKey(reg, out, key)
    ensures TracksKey(Allocate(os, reg, key, n, fate).reg, out, key)
  {
    if !(key in reg.list && reg.list[key].size < n) {
      var l := Listed(reg, key, NewEntry(n));
      var s := Allocated(os, key, l.list[key], fate);
      assert s.e.region == l.list[key].region;
      assert Allocate(os, reg, key, n, fate).reg == l.(list := l.list[key := s.e]);
    }
  }

  lemma MapTracks(os: Os, reg: Registry, out: multiset<Key>, key: Key, addr: Addr, granted: bool)
    requires Healthy(os, reg) && TracksKey(reg, out, key)
    ensures var s := Map(os, reg, key, addr, granted);
            TracksKey(s.reg, if s.r.Ok? then out + multiset{key} else out, key)
  {
    var e := if key in reg.list then reg.list[key] else NewEntry(0);
    MappedConsistent(os, key, e, addr, granted);
  }

  lemma UnmapTracksIff(os: Os, reg: Registry, out: multiset<Key>, key: Key)
    requires TracksKey(reg, out, key)
    ensures TracksKey(Unmap(os, reg, key).reg, out - multiset{key}, key)
            <==> key in out || key !in reg.list
  {
  }

  lemma FreeTracksIff(os: Os, reg: Registry, out: multiset<Key>, key: Key)
    requires TracksKey(reg, out, key)
    ensures TracksKey(Free(os, reg, key).reg, out, key) <==> key !in out
  {
  }

  /** On its own key, a call keeps the counter exact if and only if it is disciplined. */
  lemma OwnKeyTracksIff(c: Client, call: Call)
    requires Healthy(c.os, c.reg) && !call.Others? && TracksKey(c.reg, c.out, call.key)
    ensures var d := After(c, call);
            TracksKey(d.reg, d.out, call.key) <==> Disciplined(c, call)
  {
    match call
    case CallAllocate(key, n, fate) => AllocateTracks(c.os, c.reg, c.out, key, n, fate);
    case CallMap(key, addr, granted) => MapTracks(c.os, c.reg, c.out, key, addr, granted);
    case CallUnmap(key) => UnmapTracksIff(c.os, c.reg, c.out, key);
    case CallFree(key) => FreeTracksIff(c.os, c.reg, c.out, key);
    case CallOwn(key, own) =>
  }

  /** From a state where the counters are exact, a call leaves them exact if and only if it is
      disciplined. */
  lemma CallTracksIff(c: Client, call: Call)
    requires Healthy(c.os, c.reg) && Possible(c, call) && Tracks(c)
    ensures Tracks(After(c, call)) <==> Disciplined(c, call)
  {
    var d := After(c, call);
    if !call.Others? {
      OwnKeyTracksIff(c, call);
      assert TracksKey(c.reg, c.out, call.key);
    }
    forall k | call.Others? || k != call.key
      ensures TracksKey(d.reg, d.out, k)
    {
      CallFrame(c, call, k);
      assert TracksKey(c.reg, c.out, k);
    }
  }

  /** A free takes effect for everybody: the name is gone, the client lists nothing under the key,
      and its next allocation under it succeeds exactly if the system grants it, with an entry of
      at least the size asked for; what others still hold keeps its bytes. */
  lemma FreedKeyStartsAfresh(c: Client, key: Key, n: nat, fate: Fate)
    requires Healthy(c.os, c.reg)
    ensures var d := After(c, CallFree(key));
            var e := After(d, CallAllocate(key, n, fate));
            && key !in d.os.names && key !in d.reg.list && d.os.segments == c.os.segments
            && (fate.Granted? <==> key in e.os.names)
            && (fate.Granted? ==> key in e.reg.list && e.reg.list[key].handle == Some(e.os.names[key])
                                  && e.reg.list[key].size >= n && e.os.names[key] !in c.os.segments)
  {
    FreeForgets(c.os, c.reg, key, n, fate);
    var d := After(c, CallFree(key));
    AllocateMakesSegment(d.os, d.reg, key, n, fate);
    AllocateGivesRoom(d.os, d.reg, key, n, fate);
  }

  // ---------- whole runs ----------

  ghost predicate Run(c: Client, calls: seq<Call>, d: Client)
    decreases |calls|
  {
    if calls == [] then c == d
    else Possible(c, calls[0]) && Run(After(c, calls[0]), calls[1..], d)
  }

  /** Every call of the run is disciplined where it happens. */
  ghost predicate DisciplinedRun(c: Client, calls: seq<Call>)
    decreases |calls|
  {
    calls != [] ==>
      && Possible(c, calls[0]) && Disciplined(c, calls[0])
      && DisciplinedRun(After(c, calls[0]), calls[1..])
  }

  /** The key stays mapped from beginning to end of the run. */
  ghost predicate StaysMapped(c: Client, calls: seq<Call>, key: Key)
    decreases |calls|
  {
    && key in c.out
    && (calls != [] ==> Possible(c, calls[0]) && StaysMapped(After(c, calls[0]), calls[1..], key))
  }

  /** Whatever the client does, disciplined or not, its entries stay consistent. */
  lemma {:induction false} RunKeepsHealthy(c: Client, calls: seq<Call>, d: Client)
    requires Healthy(c.os, c.reg) && Run(c, calls, d)
    ensures Healthy(d.os, d.reg)
    decreases |calls|
  {
    if calls != [] {
      CallKeepsHealthy(c, calls[0]);
      RunKeepsHealthy(After(c, calls[0]), calls[1..], d);
    }
  }

  /** The registry refines the multiset of outstanding mappings over every disciplined run. */
  lemma {:induction false} RunTracks(c: Client, calls: seq<Call>, d: Client)
    requires Healthy(c.os, c.reg) && Tracks(c)
    requires Run(c, calls, d) && DisciplinedRun(c, calls)
    ensures Tracks(d)
    decreases |calls|
  {
    if calls != [] {
      CallKeepsHealthy(c, calls[0]);
      CallTracksIff(c, calls[0]);
      RunTracks(After(c, calls[0]), calls[1..], d);
    }
  }

  lemma CallKeepsRegion(c: Client, call: Call, key: Key)
    requires Healthy(c.os, c.reg) && Possible(c, call) && Tracks(c) && Disciplined(c, call)
    requires key in c.out && key in After(c, call).out
    ensures && c.reg.HasRegion(key) && After(c, call).reg.HasRegion(key)
            && After(c, call).reg.list[key].region == c.reg.list[key].region
  {
    assert TracksKey(c.reg, c.out, key);
    CallTracksIff(c, call);
    assert TracksKey(After(c, call).reg, After(c, call).out, key);
    if !call.Others? && call.key == key {
      match call
      case CallAllocate(_, n, fate) =>
        if !(c.reg.list[key].size < n) {
          AllocatedConsistent(c.os, key, c.reg.list[key], fate);
        }
      case CallMap(_, addr, granted) => MappedConsistent(c.os, key, c.reg.list[key], addr, granted);
      case _ =>
    } else {
      CallFrame(c, call, key);
    }
  }

  /** Between the first map and the last unmap the region does not move, and every map call
      succeeds and returns the same pointer, whatever the system would have answered. */
  lemma {:induction false} PointerIsStable(c: Client, calls: seq<Call>, d: Client, key: Key, addr: Addr, granted: bool)
    requires Healthy(c.os, c.reg) && Tracks(c)
    requires Run(c, calls, d) && DisciplinedRun(c, calls) && StaysMapped(c, calls, key)
    ensures && c.reg.HasRegion(key) && d.reg.HasRegion(key) && d.os.Valid()
            && d.reg.list[key].region == c.reg.list[key].region
            && Map(d.os, d.reg, key, addr, granted).r == Ok(c.reg.list[key].region.value.addr)
    decreases |calls|
  {
    assert TracksKey(c.reg, c.out, key);
    if calls == [] {
      MappedConsistent(c.os, key, c.reg.list[key], addr, granted);
    } else {
      CallKeepsHealthy(c, calls[0]);
      CallTracksIff(c, calls[0]);
      CallKeepsRegion(c, calls[0], key);
      PointerIsStable(After(c, calls[0]), calls[1..], d, key, addr, granted);
    }
  }

  /** A key that was allocated, and is owned, but was never mapped. */
  function OwnedUnmapped(key: Key): Client {
    Client(Os(map[key := 0], map[0 := Zeros(1)], 1),
           Registry(map[key := Entry(Some(0), None, None, 1, true)], map[]), multiset{})
  }

  lemma OwnedUnmappedIsReached(key: Key)
    ensures var c0 := Client(Os(map[], map[], 0), EMPTY_REGISTRY, multiset{});
            After(After(c0, CallAllocate(key, 1, Granted)), CallOwn(key, true)) == OwnedUnmapped(key)
  {
    var c0 := Client(Os(map[], map[], 0), EMPTY_REGISTRY, multiset{});
    var c1 := After(c0, CallAllocate(key, 1, Granted));
    assert c1.os == Os(map[key := 0], map[0 := Zeros(1)], 1);
    assert c1.reg == Registry(map[key := Entry(Some(0), None, None, 1, false)], map[]);
  }

  /** Unmapping it leaves its counter at -1, and allocating the key again does not reset it. */
  lemma ResidueIsLeftBehind(key: Key)
    ensures var c2 := OwnedUnmapped(key);
            var c3 := After(c2, CallUnmap(key));
            var c4 := After(c3, CallAllocate(key, 1, Granted));
            && !Disciplined(c2, CallUnmap(key))
            && c4.reg == Registry(map[key := Entry(Some(1), None, None, 1, false)], map[key := -1])
            && c4.os.Valid() && c4.out == multiset{}
  {
    var c2 := OwnedUnmapped(key);
    var c3 := After(c2, CallUnmap(key));
    assert Bumped(c2.reg, key, -1).counter == map[key := -1];
    assert c3 == Client(Os(map[], map[0 := Zeros(1)], 1), Registry(map[], map[key := -1]), multiset{});
    var s := Allocated(c3.os, key, NewEntry(1), Granted);
    assert s.e == Entry(Some(1), None, None, 1, false);
  }

  /** With that counter, the first unmap after two maps takes the region away from the second. */
  lemma ResidueTakesMappingAway(c4: Client, key: Key, addr: Addr)
    requires c4.os.Valid() && c4.out == multiset{}
    requires c4.reg == Registry(map[key := Entry(Some(1), None, None, 1, false)], map[key := -1])
    ensures var c5 := After(c4, CallMap(key, addr, true));
            var c6 := After(c5, CallMap(key, addr, true));
            var c7 := After(c6, CallUnmap(key));
            && c6.reg.HasRegion(key) && Disciplined(c6, CallUnmap(key))
            && c7.out[key] == 1 && !c7.reg.HasRegion(key)
  {
    var c5 := After(c4, CallMap(key, addr, true));
    assert c5.reg == Registry(map[key := Entry(Some(1), Some(Region(addr, 1)), Some(addr), 1, false)],
                              map[key := 0]);
    var c6 := After(c5, CallMap(key, addr, true));
    assert c6.reg.counter == map[key := 1] && c6.out[key] == 2;
  }
}
