/** What is left when every wrapper of every process is finalized. */
module LifecycleQuiescence {
  import opened OperatingSystem
  import opened Lifecycle
  import opened LifecycleInvariant

  ghost predicate Quiescent(w: World) {
    forall p :: p in w.procs ==> w.procs[p].pc.Idle? && w.procs[p].wrappers == multiset{}
  }

  /** Once every wrapper is finalized (or its process gone), no region is mapped, the names left
      are exactly the orphans', and an entry holds a segment exactly in the creator of an orphan
      and where a mapping was refused that has not succeeded since. */
  lemma WhatIsLeftAtQuiescence(w: World, p: Pid, id: nat)
    requires Inv(w) && Quiescent(w)
    ensures Data(id) in w.os.names <==> id in w.orphans
    ensures p in w.procs ==> !w.procs[p].reg.HasRegion(Data(id))
    ensures p in w.procs && Data(id) in w.procs[p].reg.list && w.procs[p].reg.list[Data(id)].handle.Some?
            <==> (p in w.procs && id in w.orphans && id in w.born && w.born[id].creator == p) || (p, id) in w.refused
  {
    assert NameOk(w, id) && BirthOk(w, id) && CountOk(w, p, id) && EntryOk(w, p, id) && HeldOk(w, p, id);
    if id in w.born {
      assert CountOk(w, w.born[id].creator, id);
    }
  }

  /** No name, no region, no held segment. */
  ghost predicate NothingLeft(w: World) {
    && (forall id :: Data(id) !in w.os.names)
    && (forall p, id :: p in w.procs && Data(id) in w.procs[p].reg.list ==>
          var e := w.procs[p].reg.list[Data(id)];
          e.handle.None? && e.region.None? && e.ptr.None?)
  }

  /** Nothing is left if and only if nothing was orphaned and no refused mapping is outstanding. */
  lemma NothingIsLeftIff(w: World)
    requires Inv(w) && Quiescent(w)
    ensures NothingLeft(w) <==> w.orphans == {} && w.refused == {}
  {
    if w.orphans == {} && w.refused == {} {
      forall id ensures Data(id) !in w.os.names { WhatIsLeftAtQuiescence(w, 0, id); }
      forall p, id | p in w.procs && Data(id) in w.procs[p].reg.list
        ensures var e := w.procs[p].reg.list[Data(id)]; e.handle.None? && e.region.None? && e.ptr.None?
      {
        WhatIsLeftAtQuiescence(w, p, id);
        assert ProcOk(w, p);
      }
    } else if id :| id in w.orphans {
      WhatIsLeftAtQuiescence(w, 0, id);
    } else {
      var r :| r in w.refused;
      WhatIsLeftAtQuiescence(w, r.0, r.1);
    }
  }

  // ---------- orphans ----------

  /** Whenever the system refuses to map a new segment, its name is orphaned. */
  lemma RefusedMappingOrphans(w: World, p: Pid, addr: Addr)
    requires Inv(w) && Enabled(w, MapNew(p, addr, false))
    ensures var v := AfterMapNew(w, p, addr, false);
            Inv(v) && v.orphans == w.orphans + {w.procs[p].pc.id}
            && v.procs.Keys == w.procs.Keys && v.procs[p].pc.Idle?
  {
    MapNewParts(w, p, addr, false);
    StepKeepsInv(w, MapNew(p, addr, false));
  }

  /** The name of an orphan outlives everything, the exit of its creator included. */
  lemma {:induction false} OrphansAreForever(w: World, steps: seq<Step>, v: World, id: nat)
    requires Inv(w) && Run(w, steps, v) && id in w.orphans
    ensures id in v.orphans && Data(id) in v.os.names
    decreases |steps|
  {
    if steps == [] {
      assert NameOk(w, id) && BirthOk(w, id);
    } else {
      var s := steps[0];
      StepKeepsInv(w, s);
      assert id in Apply(w, s).orphans;
      OrphansAreForever(Apply(w, s), steps[1..], v, id);
    }
  }
}
