/** What holds of shared objects over every run of any number of processes. */
module LifecycleTheorems {
  import opened OperatingSystem
  import opened SharedObject
  import opened SharedMemoryRegistry
  import opened Lifecycle
  import opened LifecycleInvariant

  ghost predicate Reachable(v: World) {
    exists steps :: Run(START, steps, v)
  }

  lemma ReachableInv(v: World)
    requires Reachable(v)
    ensures Inv(v)
  {
    var steps :| Run(START, steps, v);
    StartInv();
    RunKeepsInv(START, steps, v);
  }

  ghost predicate Holds(w: World, p: Pid, x: Wrapper) {
    p in w.procs && x in w.procs[p].wrappers
  }

  // ---------- names ----------

  /** A segment has its name exactly while its creator is creating it or holds a wrapper of it;
      an orphan has it for good. The name always means the segment created under it. */
  lemma NameExistsIff(w: World, id: nat)
    requires Inv(w)
    ensures Data(id) in w.os.names <==>
            id in w.born && (var p := w.born[id].creator;
                             id in w.orphans || CreatedBy(w, p, id) || exists x :: Holds(w, p, x) && x.id == id)
    ensures Data(id) in w.os.names ==> w.os.names[Data(id)] == w.born[id].seg
  {
    assert NameOk(w, id);
    if id in w.born {
      var p := w.born[id].creator;
      assert CountOk(w, p, id);
      if x :| Holds(w, p, x) && x.id == id {
        assert WrapperOk(w, p, x);
      }
      if p in w.procs && w.procs[p].reg.HasRegion(Data(id)) {
        assert Holds(w, p, Wrapper(id, w.procs[p].reg.list[Data(id)].region.value.addr));
      }
    }
  }

  /** Who created an id, where and how long never changes; and what is finished stays so. */
  lemma StepKeepsBirth(w: World, s: Step, id: nat)
    requires Inv(w) && Enabled(w, s) && id in w.born
    ensures id in Apply(w, s).born && Apply(w, s).born[id] == w.born[id]
    ensures Finished(w, id) ==> Finished(Apply(w, s), id)
  {
    match s
    case Create(p, fate) => assert PickedOk(w, p, p, w.procs[p].pc.id);
    case MapNew(p, addr, granted) =>
      assert PcOk(w, p);
      MapNewParts(w, p, addr, granted);
    case Import(p, token, addr, granted) =>
      if token.Ref? { AttachKeepsSystem(w, p, token.id, addr, granted); }
    case DuplicateAlias(p, x, addr, granted) => AttachKeepsSystem(w, p, x.id, addr, granted);
    case _ =>
  }

  /** An id keeps its birth record, and its segment keeps its bytes. */
  ghost predicate KeepsBytes(w: World, v: World, id: nat)
    requires id in w.born
  {
    && Finished(v, id) && v.born[id] == w.born[id]
    && w.born[id].seg in w.os.segments && w.born[id].seg in v.os.segments
    && v.os.segments[w.born[id].seg] == w.os.segments[w.born[id].seg]
  }

  lemma CreateKeepsBytes(w: World, p: Pid, fate: Fate, id: nat)
    requires Inv(w) && Enabled(w, Create(p, fate)) && id in w.born
    ensures w.born[id].seg in w.os.segments && w.born[id].seg in AfterCreate(w, p, fate).os.segments
    ensures AfterCreate(w, p, fate).os.segments[w.born[id].seg] == w.os.segments[w.born[id].seg]
  {
    var pc := w.procs[p].pc;
    var n := SourceSize(w, pc.src);
    assert PickedOk(w, p, p, pc.id) && BirthOk(w, id);
    assert Allocate(w.os, w.procs[p].reg, Data(pc.id), n, fate).os
           == Allocated(w.os, Data(pc.id), NewEntry(n), fate).os;
  }

  lemma FillKeepsBytes(w: World, p: Pid, id: nat)
    requires Inv(w) && Enabled(w, Fill(p)) && id in w.born
    requires w.procs[p].pc.Filling? ==> id != w.procs[p].pc.id
    ensures w.born[id].seg in w.os.segments && w.born[id].seg in AfterFill(w, p).os.segments
    ensures AfterFill(w, p).os.segments[w.born[id].seg] == w.os.segments[w.born[id].seg]
  {
    assert BirthOk(w, id);
    if w.procs[p].pc.Filling? {
      FillingParts(w, p);
      assert SegsDistinct(w, id, w.procs[p].pc.id);
    }
  }

  lemma FinalizeKeepsBytes(w: World, p: Pid, x: Wrapper)
    requires Inv(w) && Enabled(w, Finalize(p, x))
    ensures AfterFinalize(w, p, x).os.segments == w.os.segments
  {
    assert WrapperOk(w, p, x) && ProcOk(w, p);
    UnmapHasShape(w.os, w.procs[p].reg, x.id);
  }

  /** What one step does to an id that is finished: its birth record stays, and its bytes are
      changed by writes through its own wrappers only. */
  lemma StepKeepsBytes(w: World, s: Step, id: nat)
    requires Inv(w) && Enabled(w, s) && Finished(w, id)
    ensures Finished(Apply(w, s), id) && Apply(w, s).born[id] == w.born[id]
    ensures !(s.Write? && s.x.id == id) ==> KeepsBytes(w, Apply(w, s), id)
  {
    assert BirthOk(w, id);
    StepKeepsBirth(w, s, id);
    match s
    case Create(p, fate) => CreateKeepsBytes(w, p, fate, id);
    case MapNew(p, addr, granted) => MapNewParts(w, p, addr, granted);
    case Fill(p) =>
      if w.procs[p].pc.Filling? { FillingParts(w, p); }
      FillKeepsBytes(w, p, id);
    case Write(p, x, at, b) => assert SegsDistinct(w, id, x.id);
    case Import(p, token, addr, granted) =>
      if token.Ref? { AttachKeepsSystem(w, p, token.id, addr, granted); }
    case DuplicateAlias(p, x, addr, granted) => AttachKeepsSystem(w, p, x.id, addr, granted);
    case Finalize(p, x) => FinalizeKeepsBytes(w, p, x);
    case _ =>
  }

  lemma AttachKeepsSystem(w: World, p: Pid, id: nat, addr: Addr, granted: bool)
    requires Inv(w) && p in w.procs
    ensures var v := Attach(w, p, id, addr, granted);
            && v.os == w.os && v.born == w.born && v.orphans == w.orphans
            && v.procs.Keys == w.procs.Keys && forall q :: q in w.procs ==> v.procs[q].pc == w.procs[q].pc
  {
    assert ProcOk(w, p);
    MapHealthy(w.os, w.procs[p].reg, Data(id), addr, granted);
  }

  /** Every wrapper of every process, in every reachable state, points to a live mapping of the
      very segment created under its id, and all wrappers of one id read the same bytes. */
  lemma WrappersAreAliases(w: World, p: Pid, x: Wrapper, q: Pid, y: Wrapper)
    requires Inv(w) && Holds(w, p, x) && Holds(w, q, y)
    ensures Points(w, p, x) && Points(w, q, y)
    ensures x.id == y.id ==> View(w, p, x) == View(w, q, y)
    ensures x.id != y.id ==> w.born[x.id].seg != w.born[y.id].seg
  {
    assert WrapperOk(w, p, x) && WrapperOk(w, q, y) && SegsDistinct(w, x.id, y.id);
  }

  /** A write through one wrapper is read through every wrapper of the same id, in any process,
      and through no other. */
  lemma WriteIsSeenByAliasesOnly(w: World, p: Pid, x: Wrapper, at: nat, b: Byte, q: Pid, y: Wrapper)
    requires Inv(w) && Enabled(w, Write(p, x, at, b)) && Holds(w, q, y)
    ensures var v := Apply(w, Write(p, x, at, b));
            && Holds(v, q, y) && Points(v, q, y)
            && |View(v, q, y)| == |View(w, q, y)|
            && (y.id == x.id ==> at < |View(w, q, y)| && View(v, q, y)[at] == b
                                 && forall i :: 0 <= i < |View(v, q, y)| && i != at ==>
                                      View(v, q, y)[i] == View(w, q, y)[i])
            && (y.id != x.id ==> View(v, q, y) == View(w, q, y))
  {
    var v := Apply(w, Write(p, x, at, b));
    WriteKeepsInv(w, p, x, at, b);
    assert WrapperOk(w, p, x) && WrapperOk(w, q, y) && WrapperOk(v, q, y) && SegsDistinct(w, x.id, y.id);
  }

  // ---------- whole runs ----------

  ghost predicate NeverWrites(steps: seq<Step>, id: nat) {
    forall i :: 0 <= i < |steps| && steps[i].Write? ==> steps[i].x.id != id
  }

  /** Over any run that does not write to an id, its bytes stay what they were, whatever is
      created, exported, received, duplicated, finalized or written elsewhere meanwhile. */
  lemma {:induction false} QuietRunKeepsBytes(w: World, steps: seq<Step>, v: World, id: nat)
    requires Inv(w) && Run(w, steps, v) && Finished(w, id) && NeverWrites(steps, id)
    ensures Inv(v) && KeepsBytes(w, v, id)
    decreases |steps|
  {
    if steps == [] {
      assert BirthOk(w, id);
    } else {
      StepKeepsInv(w, steps[0]);
      StepKeepsBytes(w, steps[0], id);
      assert NeverWrites(steps[1..], id);
      QuietRunKeepsBytes(Apply(w, steps[0]), steps[1..], v, id);
    }
  }

  /** So whoever still holds a wrapper of that id reads at the end what was read at the start. */
  lemma QuietRunKeepsView(w: World, steps: seq<Step>, v: World, p: Pid, x: Wrapper, q: Pid, y: Wrapper)
    requires Inv(w) && Run(w, steps, v) && Holds(w, p, x) && Holds(v, q, y)
    requires x.id == y.id && Finished(w, x.id) && NeverWrites(steps, x.id)
    ensures View(v, q, y) == View(w, p, x)
  {
    assert WrapperOk(w, p, x);
    QuietRunKeepsBytes(w, steps, v, x.id);
    assert WrapperOk(v, q, y);
  }

  /** Who created an id, and its segment, never change. */
  lemma {:induction false} RunKeepsBirth(w: World, steps: seq<Step>, v: World, id: nat)
    requires Inv(w) && Run(w, steps, v) && id in w.born
    ensures Inv(v) && id in v.born && v.born[id] == w.born[id]
    ensures Finished(w, id) ==> Finished(v, id)
    decreases |steps|
  {
    if steps != [] {
      StepKeepsInv(w, steps[0]);
      StepKeepsBirth(w, steps[0], id);
      RunKeepsBirth(Apply(w, steps[0]), steps[1..], v, id);
    }
  }

  lemma OtherStepsKeepNames(w: World, s: Step, id: nat)
    requires Inv(w) && Enabled(w, s) && !s.Finalize? && !s.Exit? && Data(id) in w.os.names
    ensures Data(id) in Apply(w, s).os.names
  {
    match s
    case Create(p, fate) => CreateHasShape(w, p, fate);
    case MapNew(p, addr, granted) => MapNewParts(w, p, addr, granted);
    case Import(p, token, addr, granted) =>
      if token.Ref? { AttachKeepsSystem(w, p, token.id, addr, granted); }
    case DuplicateAlias(p, x, addr, granted) => AttachKeepsSystem(w, p, x.id, addr, granted);
    case _ =>
  }

  lemma OnlyTheOwnerRemoves(w: World, s: Step, id: nat)
    requires Inv(w) && Enabled(w, s) && (s.Finalize? || s.Exit?)
    requires Data(id) in w.os.names && Data(id) !in Apply(w, s).os.names
    ensures id in w.born && HandedOut(w, id) && s.p == w.born[id].creator
  {
    assert NameOk(w, id);
    match s
    case Finalize(p, x) =>
      assert WrapperOk(w, p, x) && ProcOk(w, p) && EntryOk(w, p, x.id);
      UnmapHasShape(w.os, w.procs[p].reg, x.id);
    case Exit(p) =>
      assert EntryOk(w, p, id);
      OwnsWhatItCreated(w, p, id);
    case _ =>
  }

  /** A name disappears only when its creator finalizes its last wrapper or exits: a process that
      merely received the object never removes it. */
  lemma OnlyTheCreatorRemovesAName(w: World, s: Step, id: nat)
    requires Inv(w) && Enabled(w, s)
    requires Data(id) in w.os.names && Data(id) !in Apply(w, s).os.names
    ensures && id in w.born && HandedOut(w, id) && s.p == w.born[id].creator
            && (s.Finalize? || s.Exit?)
            && forall x :: Holds(Apply(w, s), s.p, x) ==> x.id != id
  {
    if !s.Finalize? && !s.Exit? {
      OtherStepsKeepNames(w, s, id);
    }
    OnlyTheOwnerRemoves(w, s, id);
    StepKeepsInv(w, s);
    NameExistsIff(Apply(w, s), id);
  }

  /** What a finalizer gives back: one wrapper; with the last one of its id in this process the
      mapping and the entry; and if this process created the id, then the name too. Nothing else. */
  lemma FinalizeGivesBack(w: World, p: Pid, x: Wrapper, id: nat)
    requires Inv(w) && Enabled(w, Finalize(p, x))
    ensures var v := Apply(w, Finalize(p, x));
            var last := w.procs[p].wrappers[x] == 1;
            && v.procs[p].wrappers == w.procs[p].wrappers - multiset{x}
            && (forall q :: q in w.procs && q != p ==> q in v.procs && v.procs[q] == w.procs[q])
            && (Data(x.id) in v.procs[p].reg.list <==> !last) && (v.procs[p].reg.HasRegion(Data(x.id)) <==> !last)
            && (Data(id) in v.os.names <==>
                  Data(id) in w.os.names && !(last && id == x.id && x.id in w.born && w.born[x.id].creator == p))
            && v.os.segments == w.os.segments
  {
    assert WrapperOk(w, p, x) && ProcOk(w, p) && CountOk(w, p, x.id) && EntryOk(w, p, x.id) && NameOk(w, id);
    UnmapHasShape(w.os, w.procs[p].reg, x.id);
    if id != x.id {
      UnmapFrame(w.os, w.procs[p].reg, Data(x.id), Data(id));
    }
  }

  // ---------- serialization ----------

  /** The process gained nothing (NULL), or one wrapper of `id`. */
  ghost predicate GainsAtMost(v: World, u: World, q: Pid, id: nat) {
    && q in v.procs && q in u.procs
    && (u.procs[q].wrappers == v.procs[q].wrappers ||
        exists y: Wrapper :: y.id == id && Points(u, q, y)
          && u.procs[q].wrappers == v.procs[q].wrappers + multiset{y})
  }

  lemma AttachGains(v: World, q: Pid, id: nat, addr: Addr, granted: bool)
    requires Inv(v) && q in v.procs && v.procs[q].pc.Idle? && Finished(v, id)
    ensures var u := Attach(v, q, id, addr, granted);
            && GainsAtMost(v, u, q, id) && u.born == v.born && u.os == v.os
            && (u.procs[q].wrappers != v.procs[q].wrappers <==>
                  v.procs[q].reg.HasRegion(Data(id))
                  || (granted && (Data(id) in v.os.names
                                  || (Data(id) in v.procs[q].reg.list && v.procs[q].reg.list[Data(id)].handle.Some?))))
  {
    var u := Attach(v, q, id, addr, granted);
    var reg := v.procs[q].reg;
    assert ProcOk(v, q);
    MapHealthy(v.os, reg, Data(id), addr, granted);
    AttachKeepsInv(v, q, id, addr, granted);
    var e := if Data(id) in reg.list then reg.list[Data(id)] else NewEntry(0);
    MappedConsistent(v.os, Data(id), e, addr, granted);
    var s := Map(v.os, reg, Data(id), addr, granted);
    if s.r.Ok? {
      var y := Wrapper(id, s.r.value);
      assert Holds(u, q, y) && WrapperOk(u, q, y);
      assert u.procs[q].wrappers[y] == v.procs[q].wrappers[y] + 1;
    }
  }

  /** A vector that has its name, serialized now and received in any process at any later time: it
      is an alias of the very segment it was, or NULL. It never resolves to another segment. */
  lemma SerializedNeverResolvesElsewhere(
      w: World, p: Pid, x: Wrapper, steps: seq<Step>, v: World, q: Pid, addr: Addr, granted: bool)
    requires Inv(w) && Enabled(w, Export(p, x)) && HasName(w, x.id) && Run(Apply(w, Export(p, x)), steps, v)
    requires Enabled(v, Import(q, RefTo(w, x.id), addr, granted))
    ensures var token := RefTo(w, x.id);
            var u := Apply(v, Import(q, token, addr, granted));
            && Points(w, p, x) && token in Apply(w, Export(p, x)).tokens
            && GainsAtMost(v, u, q, x.id) && x.id in u.born && u.born[x.id] == w.born[x.id]
            && (granted && Data(x.id) in v.os.names ==> u.procs[q].wrappers != v.procs[q].wrappers)
  {
    var w' := Apply(w, Export(p, x));
    assert WrapperOk(w, p, x);
    ExportKeepsInv(w, p, x);
    assert Finished(w', x.id);
    RunKeepsBirth(w', steps, v, x.id);
    AttachGains(v, q, x.id, addr, granted);
  }

  // ---------- fresh ids ----------

  function Increments(steps: seq<Step>): nat {
    if steps == [] then 0 else (if steps[0].Increment? then 1 else 0) + Increments(steps[1..])
  }

  /** The shared counter counts the increments, whoever makes them, and each gives its process the
      number it has reached. */
  lemma {:induction false} LastIdCountsIncrements(w: World, steps: seq<Step>, v: World)
    requires Inv(w) && Run(w, steps, v)
    ensures Inv(v) && v.lastId == w.lastId + Increments(steps)
    ensures forall p :: Enabled(v, Increment(p)) ==>
              Apply(v, Increment(p)).procs[p].pc == Checking(v.procs[p].pc.src, w.lastId + Increments(steps) + 1)
    decreases |steps|
  {
    if steps != [] {
      StepKeepsInv(w, steps[0]);
      StepCountsIncrement(w, steps[0]);
      LastIdCountsIncrements(Apply(w, steps[0]), steps[1..], v);
    }
  }

  lemma StepCountsIncrement(w: World, s: Step)
    requires Inv(w) && Enabled(w, s)
    ensures Apply(w, s).lastId == w.lastId + if s.Increment? then 1 else 0
  {
  }

  /** Automatically chosen ids never collide: an id a process has picked is picked by no other,
      listed in no registry, named by no segment, and created under by nobody. */
  lemma PickedIdsAreFresh(w: World, p: Pid, id: nat)
    requires Inv(w) && p in w.procs && Picked(w.procs[p].pc, id)
    ensures forall q :: q in w.procs && q != p ==> !Picked(w.procs[q].pc, id)
    ensures forall q :: q in w.procs ==> Data(id) !in w.procs[q].reg.list
    ensures id !in w.born && Data(id) !in w.os.names
  {
    forall q | q in w.procs
      ensures Data(id) !in w.procs[q].reg.list && (Picked(w.procs[q].pc, id) ==> q == p)
    {
      assert PickedOk(w, p, q, id);
    }
    assert PickedOk(w, p, p, id) && NameOk(w, id);
  }

  /** So the existence check never sends a process back, and an automatic allocation that
      succeeds has made a segment that did not exist before. */
  lemma CreationMakesANewSegment(w: World, p: Pid, fate: Fate)
    requires Inv(w) && Enabled(w, Create(p, fate))
    ensures var id := w.procs[p].pc.id;
            var v := AfterCreate(w, p, fate);
            if fate.Granted? then
              && v.procs[p].pc.Created? && v.born.Keys == w.born.Keys + {id} && id !in w.born
              && v.born[id].seg !in w.os.segments && v.born[id].seg in v.os.segments
              && forall i :: i in w.born ==> v.born[i] == w.born[i] && v.born[i].seg != v.born[id].seg
            else
              v.procs[p].pc.Idle? && v.born == w.born && v.os.names == w.os.names
  {
    var id, n := w.procs[p].pc.id, SourceSize(w, w.procs[p].pc.src);
    PickedIdsAreFresh(w, p, id);
    CreateHasShape(w, p, fate);
    AllocatedConsistent(w.os, Data(id), NewEntry(n), fate);
    forall i | i in w.born ensures w.born[i].seg in w.os.segments { assert BirthOk(w, i); }
  }

  lemma CheckNeverFindsAName(w: World, p: Pid)
    requires Inv(w) && Enabled(w, Check(p))
    ensures Apply(w, Check(p)).procs[p].pc == Chosen(w.procs[p].pc.src, w.procs[p].pc.id)
  {
    PickedIdsAreFresh(w, p, w.procs[p].pc.id);
  }
}
