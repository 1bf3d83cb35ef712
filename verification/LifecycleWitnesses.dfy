/** Reachable worlds in which things go wrong: both leaks, and a torn copy. */
module LifecycleWitnesses {
  import opened OperatingSystem
  import opened SharedObject
  import opened SharedMemoryRegistry
  import opened Lifecycle
  import opened LifecycleInvariant
  import opened LifecycleTheorems
  import opened LifecycleCopies
  import opened LifecycleQuiescence

  // ---------- one process, one vector ----------

  lemma ReachableNext(w: World, s: Step)
    requires Reachable(w) && Enabled(w, s)
    ensures Reachable(Apply(w, s)) && Inv(Apply(w, s))
  {
    var steps :| Run(START, steps, w);
    RunLast(START, steps, w, s);
    ReachableInv(Apply(w, s));
  }

  lemma {:induction false} RunLast(w: World, steps: seq<Step>, v: World, s: Step)
    requires Run(w, steps, v) && Enabled(v, s)
    ensures Run(w, steps + [s], Apply(v, s))
    decreases |steps|
  {
    if steps == [] {
      assert [s][1..] == [];
    } else {
      RunLast(Apply(w, steps[0]), steps[1..], v, s);
      assert (steps + [s])[1..] == steps[1..] + [s];
    }
  }

  /** Process 0 is alone, and has chosen the id for its first vector, of one byte. */
  const ONE_CHOSEN :=
    World(Os(map[], map[], 0), 1, map[0 := Proc(EMPTY_REGISTRY, multiset{}, Chosen(Bytes([7]), 1))],
          {}, 1, map[], {}, {})

  lemma OneChosenIsReachable()
    ensures Reachable(ONE_CHOSEN) && Inv(ONE_CHOSEN)
  {
    assert Run(START, [], START);
    StartInv();
    ReachableNext(START, Spawn(0));
    var w1 := Apply(START, Spawn(0));
    ReachableNext(w1, Request(0, Bytes([7])));
    var w2 := Apply(w1, Request(0, Bytes([7])));
    ReachableNext(w2, Increment(0));
    var w3 := Apply(w2, Increment(0));
    ReachableNext(w3, Check(0));
    assert Apply(w3, Check(0)) == ONE_CHOSEN;
  }

  ghost predicate OneCreated(w: World) {
    && Reachable(w) && Inv(w) && w.procs.Keys == {0} && w.spawned == 1 && w.lastId == 1
    && w.procs[0].pc == Created(Bytes([7]), 1)
    && w.procs[0].wrappers == multiset{} && w.orphans == {} && w.refused == {}
  }

  lemma OneCreatedIsReachable()
    ensures Enabled(ONE_CHOSEN, Create(0, Granted)) && OneCreated(Apply(ONE_CHOSEN, Create(0, Granted)))
  {
    OneChosenIsReachable();
    CreationMakesANewSegment(ONE_CHOSEN, 0, Granted);
    ReachableNext(ONE_CHOSEN, Create(0, Granted));
  }

  /** A process that is refused the mapping of its new segment and exits leaves a name behind that
      nobody will ever remove. */
  lemma RefusedMappingLeaks(addr: Addr)
    ensures exists v :: Reachable(v) && v.procs == map[] && Data(1) in v.os.names
  {
    OneCreatedIsReachable();
    var w := Apply(ONE_CHOSEN, Create(0, Granted));
    RefusedMappingOrphans(w, 0, addr);
    ReachableNext(w, MapNew(0, addr, false));
    var w' := Apply(w, MapNew(0, addr, false));
    ReachableNext(w', Exit(0));
    var v := Apply(w', Exit(0));
    assert NameOk(v, 1) && BirthOk(v, 1);
    assert v.procs == map[];
  }

  ghost predicate OneFilling(w: World, x: Wrapper, done: nat) {
    && Reachable(w) && Inv(w) && w.procs.Keys == {0} && w.spawned == 1 && w.lastId == 1
    && w.procs[0].pc == Filling(Bytes([7]), x.id, x, done) && w.procs[0].wrappers == multiset{x}
    && x.id in w.born && w.born[x.id].creator == 0 && w.born[x.id].n == 1 && w.orphans == {} && w.refused == {}
  }

  lemma OneMapped(w: World, addr: Addr)
    requires OneCreated(w)
    ensures OneFilling(AfterMapNew(w, 0, addr, true), Wrapper(1, addr), 0)
  {
    assert PcOk(w, 0);
    MapNewParts(w, 0, addr, true);
    ReachableNext(w, MapNew(0, addr, true));
  }

  /** Process 0 is alone and holds one wrapper, of a vector it created. */
  ghost predicate OneShared(w: World, x: Wrapper) {
    && Reachable(w) && Inv(w) && w.procs.Keys == {0} && w.spawned == 1 && w.lastId == 1
    && w.procs[0].pc.Idle? && w.procs[0].wrappers == multiset{x}
    && x.id in w.born && w.born[x.id].creator == 0 && w.born[x.id].n == 1 && w.orphans == {} && w.refused == {}
  }

  lemma OneFilled(w: World, x: Wrapper)
    requires OneFilling(w, x, 0)
    ensures exists v :: OneShared(v, x)
  {
    FillGoesOn(w, 0);
    FillingParts(w, 0);
    ReachableNext(w, Fill(0));
    var w' := Apply(w, Fill(0));
    FillGoesOn(w', 0);
    ReachableNext(w', Finish(0));
    assert OneShared(Apply(w', Finish(0)), x);
  }

  lemma OneSharedIsReachable(addr: Addr)
    ensures exists v :: OneShared(v, Wrapper(1, addr))
  {
    OneCreatedIsReachable();
    OneMapped(Apply(ONE_CHOSEN, Create(0, Granted)), addr);
    OneFilled(AfterMapNew(Apply(ONE_CHOSEN, Create(0, Granted)), 0, addr, true), Wrapper(1, addr));
  }

  /** A received vector whose mapping is refused after it could be opened: the process has no
      wrapper of it, and holds its segment. */
  lemma RefusedImportHolds(w: World, p: Pid, id: nat, addr: Addr)
    requires Inv(w) && p in w.procs && w.procs[p].pc.Idle? && Finished(w, id) && Data(id) in w.os.names
    requires w.born[id].creator != p && !w.procs[p].reg.HasRegion(Data(id))
    ensures var v := Attach(w, p, id, addr, false);
            && Inv(v) && HoldsUnmapped(v, p, id) && v.refused == w.refused + {(p, id)}
            && v.os == w.os && v.procs[p].wrappers == w.procs[p].wrappers && v.procs[p].pc.Idle?
            && v.procs.Keys == w.procs.Keys && forall q :: q in w.procs && q != p ==> v.procs[q] == w.procs[q]
  {
    var v := Attach(w, p, id, addr, false);
    assert ProcOk(w, p);
    MapHasShape(w.os, w.procs[p].reg, id, addr, false);
    var reg := w.procs[p].reg;
    MappedConsistent(w.os, Data(id), if Data(id) in reg.list then reg.list[Data(id)] else NewEntry(0), addr, false);
    AttachKeepsInv(w, p, id, addr, false);
    AttachKeepsSystem(w, p, id, addr, false);
    assert HeldOk(v, p, id);
  }

  lemma SharedIsNamed(w: World, x: Wrapper)
    requires OneShared(w, x)
    ensures Data(x.id) in w.os.names && Enabled(w, Export(0, x)) && Finished(w, x.id)
    ensures HasName(w, x.id)
  {
    assert x in w.procs[0].wrappers && WrapperOk(w, 0, x) && NameOk(w, x.id);
  }

  /** Process 0 still holds its one wrapper, and process 1 holds the segment unmapped. */
  ghost predicate OneHeld(w: World, x: Wrapper) {
    && Reachable(w) && Inv(w) && w.procs.Keys == {0, 1} && w.procs[0].pc.Idle? && w.procs[1].pc.Idle?
    && w.procs[0].wrappers == multiset{x} && w.procs[1].wrappers == multiset{}
    && w.orphans == {} && w.refused == {(1, x.id)}
  }

  lemma ExportAndSpawn(w: World, x: Wrapper)
    requires OneShared(w, x)
    ensures Enabled(w, Export(0, x)) && Enabled(Apply(w, Export(0, x)), Spawn(1))
    ensures var token := RefTo(w, x.id);
            var v := Apply(Apply(w, Export(0, x)), Spawn(1));
            && Inv(v) && v.procs == w.procs[1 := Proc(EMPTY_REGISTRY, multiset{}, Idle)] && v.born == w.born
            && v.os == w.os && v.lastId == w.lastId && v.orphans == {} && v.refused == {} && token in v.tokens
  {
    SharedIsNamed(w, x);
    var w1 := Apply(w, Export(0, x));
    StepKeepsInv(w, Export(0, x));
    StepKeepsInv(w1, Spawn(1));
  }

  lemma ReceivedAndRefused(w: World, x: Wrapper, addr: Addr)
    requires OneShared(w, x)
    ensures exists v :: OneHeld(v, x)
  {
    SharedIsNamed(w, x);
    ExportAndSpawn(w, x);
    ReachableNext(w, Export(0, x));
    ReachableNext(Apply(w, Export(0, x)), Spawn(1));
    NewcomerIsRefused(Apply(Apply(w, Export(0, x)), Spawn(1)), x, addr);
  }

  lemma NewcomerIsRefused(w: World, x: Wrapper, addr: Addr)
    requires Reachable(w) && Inv(w) && w.procs.Keys == {0, 1} && w.orphans == {} && w.refused == {}
    requires w.procs[0].pc.Idle? && w.procs[0].wrappers == multiset{x}
    requires w.procs[1] == Proc(EMPTY_REGISTRY, multiset{}, Idle)
    requires HasName(w, x.id) && Finished(w, x.id) && w.born[x.id].creator == 0 && RefTo(w, x.id) in w.tokens
    ensures exists v :: OneHeld(v, x)
  {
    var s := Import(1, RefTo(w, x.id), addr, false);
    RefusedImportHolds(w, 1, x.id, addr);
    ReachableNext(w, s);
    assert OneHeld(Apply(w, s), x);
  }

  /** The last wrapper is finalized: the name goes, and the refused process holds what it meant. */
  lemma NamelessSegmentIsHeld(w: World, x: Wrapper)
    requires OneHeld(w, x)
    ensures Enabled(w, Finalize(0, x))
    ensures var v := Apply(w, Finalize(0, x));
            Inv(v) && Quiescent(v) && Data(x.id) !in v.os.names && HoldsUnmapped(v, 1, x.id)
  {
    assert x in w.procs[0].wrappers && w.procs[0].wrappers[x] == 1;
    var v := Apply(w, Finalize(0, x));
    StepKeepsInv(w, Finalize(0, x));
    assert v.procs[0].wrappers == multiset{};
    assert Quiescent(v) && (1, x.id) in v.refused && HeldOk(v, 1, x.id);
    WhatIsLeftAtQuiescence(v, 1, x.id);
  }

  /** A process that received a vector, was refused its mapping and keeps running holds the
      segment when nobody has a wrapper any more and its name is gone. */
  lemma RefusedImportLeaks(addr: Addr)
    ensures exists v, p, id :: Reachable(v) && Quiescent(v) && Data(id) !in v.os.names && HoldsUnmapped(v, p, id)
  {
    var x := Wrapper(1, addr);
    OneSharedIsReachable(addr);
    var w :| OneShared(w, x);
    ReceivedAndRefused(w, x, addr);
    var u :| OneHeld(u, x);
    NamelessSegmentIsHeld(u, x);
    ReachableNext(u, Finalize(0, x));
  }

  // ---------- a torn copy ----------

  /** Process 1 holds an alias of the vector of process 0, which stands at `pc`. */
  ghost predicate TwoHolders(w: World, x: Wrapper, z: Wrapper, pc: Pc) {
    && Reachable(w) && Inv(w) && 0 in w.procs && 1 in w.procs && w.lastId <= 2
    && w.procs[0].pc == pc && x in w.procs[0].wrappers
    && w.procs[1].pc.Idle? && z in w.procs[1].wrappers && z.id == x.id
    && x.id in w.born && w.born[x.id].n == 1
  }

  lemma ReceivedAndMapped(w: World, x: Wrapper, addr: Addr)
    requires OneShared(w, x)
    ensures exists v, z :: TwoHolders(v, x, z, Idle) && v.lastId == 1
  {
    var token := RefTo(w, x.id);
    SharedIsNamed(w, x);
    ExportAndSpawn(w, x);
    ReachableNext(w, Export(0, x));
    var w1 := Apply(w, Export(0, x));
    ReachableNext(w1, Spawn(1));
    var w2 := Apply(w1, Spawn(1));
    ReachableNext(w2, Import(1, token, addr, true));
    AttachGains(w2, 1, x.id, addr, true);
    var v := Apply(w2, Import(1, token, addr, true));
    var z: Wrapper :| z.id == x.id && v.procs[1].wrappers == multiset{} + multiset{z};
    assert x in w.procs[0].wrappers && z in v.procs[1].wrappers;
    assert TwoHolders(v, x, z, Idle);
  }

  /** Process 0 chooses an id for a shared copy. */
  lemma CopyIsChosen(w: World, x: Wrapper, z: Wrapper)
    requires TwoHolders(w, x, z, Idle) && w.lastId == 1
    ensures exists v :: TwoHolders(v, x, z, Chosen(CopyOf(x), 2))
  {
    ReachableNext(w, Request(0, CopyOf(x)));
    var w1 := Apply(w, Request(0, CopyOf(x)));
    ReachableNext(w1, Increment(0));
    var w2 := Apply(w1, Increment(0));
    CheckNeverFindsAName(w2, 0);
    ReachableNext(w2, Check(0));
    assert TwoHolders(Apply(w2, Check(0)), x, z, Chosen(CopyOf(x), 2));
  }

  lemma CopyIsCreated(w: World, x: Wrapper, z: Wrapper)
    requires TwoHolders(w, x, z, Chosen(CopyOf(x), 2))
    ensures exists v :: TwoHolders(v, x, z, Created(CopyOf(x), 2))
  {
    CreationMakesANewSegment(w, 0, Granted);
    ReachableNext(w, Create(0, Granted));
    assert TwoHolders(Apply(w, Create(0, Granted)), x, z, Created(CopyOf(x), 2));
  }

  /** It maps the new segment and is about to copy the one byte. */
  lemma CopyIsMapped(w: World, x: Wrapper, z: Wrapper, addr: Addr)
    requires TwoHolders(w, x, z, Created(CopyOf(x), 2))
    ensures exists v :: TwoHolders(v, x, z, Filling(CopyOf(x), 2, Wrapper(2, addr), 0)) && InStep(v, 0)
  {
    MapNewStartsInStep(w, 0, addr);
    MapNewParts(w, 0, addr, true);
    StepKeepsBirth(w, MapNew(0, addr, true), x.id);
    ReachableNext(w, MapNew(0, addr, true));
    assert TwoHolders(Apply(w, MapNew(0, addr, true)), x, z, Filling(CopyOf(x), 2, Wrapper(2, addr), 0));
  }

  lemma CopyIsFilled(w: World, x: Wrapper, z: Wrapper, y: Wrapper)
    requires TwoHolders(w, x, z, Filling(CopyOf(x), 2, y, 0)) && InStep(w, 0)
    ensures exists v :: TwoHolders(v, x, z, Filling(CopyOf(x), 2, y, 1)) && InStep(v, 0)
  {
    FillingParts(w, 0);
    FillGoesOn(w, 0);
    FillCopiesOne(w, 0);
    ReachableNext(w, Fill(0));
    assert TwoHolders(Apply(w, Fill(0)), x, z, Filling(CopyOf(x), 2, y, 1));
  }

  /** Process 1 writes to the source just before process 0 is done: the copy ends up different. */
  lemma CopyMayBeTorn(addr: Addr)
    ensures exists v, p :: Reachable(v) && Enabled(v, Finish(p)) && v.procs[p].pc.Filling?
                           && v.procs[p].pc.src.CopyOf?
                           && View(v, p, v.procs[p].pc.x) != SourceBytes(v, p, v.procs[p].pc.src)
  {
    var x, y := Wrapper(1, addr), Wrapper(2, addr);
    OneSharedIsReachable(addr);
    var w :| OneShared(w, x);
    ReceivedAndMapped(w, x, addr);
    var w1, z :| TwoHolders(w1, x, z, Idle) && w1.lastId == 1;
    CopyIsChosen(w1, x, z);
    var w2 :| TwoHolders(w2, x, z, Chosen(CopyOf(x), 2));
    CopyIsCreated(w2, x, z);
    var w3 :| TwoHolders(w3, x, z, Created(CopyOf(x), 2));
    CopyIsMapped(w3, x, z, addr);
    var w4 :| TwoHolders(w4, x, z, Filling(CopyOf(x), 2, y, 0)) && InStep(w4, 0);
    CopyIsFilled(w4, x, z, y);
    var w5 :| TwoHolders(w5, x, z, Filling(CopyOf(x), 2, y, 1)) && InStep(w5, 0);
    LastWriteIsMissed(w5, x, z, y);
  }

  lemma LastWriteIsMissed(w: World, x: Wrapper, z: Wrapper, y: Wrapper)
    requires TwoHolders(w, x, z, Filling(CopyOf(x), 2, y, 1)) && InStep(w, 0)
    ensures exists v :: Reachable(v) && Enabled(v, Finish(0)) && v.procs[0].pc.Filling?
                        && v.procs[0].pc.src.CopyOf?
                        && View(v, 0, v.procs[0].pc.x) != SourceBytes(v, 0, v.procs[0].pc.src)
  {
    var bytes := SourceBytes(w, 0, CopyOf(x));
    var b: Byte := if bytes[0] == 0 then 1 else 0;
    FillingParts(w, 0);
    WrappersAreAliases(w, 0, x, 1, z);
    assert Enabled(w, Write(1, z, 0, b));
    WriteDuringCopyIsCopiedIff(w, 0, 1, z, 0, b);
    ReachableNext(w, Write(1, z, 0, b));
    var v := Apply(w, Write(1, z, 0, b));
    FillingParts(v, 0);
    assert View(v, 0, y)[..1] == View(v, 0, y) && SourceBytes(v, 0, CopyOf(x))[..1] == SourceBytes(v, 0, CopyOf(x));
  }
}
