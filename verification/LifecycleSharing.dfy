/**
  Sharing a vector from beginning to end: from the request to the finished vector, with any
  processes acting in between.
 */
module LifecycleSharing {
  import opened OperatingSystem
  import opened Lifecycle
  import opened LifecycleInvariant
  import opened LifecycleTheorems
  import opened LifecycleCopies

  /** The process is making a vector from `src`, or has stopped. */
  ghost predicate OnItsWay(w: World, p: Pid, src: Source) {
    p in w.procs ==> w.procs[p].pc.Idle? || (w.procs[p].pc.src == src && !w.procs[p].pc.Exporting?)
  }

  /** In this run the process starts nothing else. */
  ghost predicate NoNewJob(steps: seq<Step>, p: Pid) {
    forall i :: 0 <= i < |steps| && (steps[i].Request? || steps[i].Export?) ==> steps[i].p != p
  }

  lemma StepKeepsOthersPc(w: World, s: Step, p: Pid)
    requires Inv(w) && Enabled(w, s) && p in w.procs && s.p != p
    ensures p in Apply(w, s).procs && Apply(w, s).procs[p] == w.procs[p]
  {
    match s
    case Spawn(q) => assert ProcOk(w, q);
    case _ =>
  }

  lemma StepOnItsWay(w: World, s: Step, p: Pid, src: Source)
    requires Inv(w) && Enabled(w, s) && p < w.spawned && OnItsWay(w, p, src)
    requires (s.Request? || s.Export?) ==> s.p != p
    ensures OnItsWay(Apply(w, s), p, src) && p < Apply(w, s).spawned
  {
    if p in w.procs && s.p != p {
      StepKeepsOthersPc(w, s, p);
    }
  }

  /** Whatever happens meanwhile, the source that was asked for is the one that is used. */
  lemma {:induction false} RunOnItsWay(w: World, steps: seq<Step>, v: World, p: Pid, src: Source)
    requires Inv(w) && Run(w, steps, v) && p < w.spawned && OnItsWay(w, p, src) && NoNewJob(steps, p)
    ensures Inv(v) && OnItsWay(v, p, src)
    decreases |steps|
  {
    if steps != [] {
      assert NoNewJob(steps[1..], p);
      StepKeepsInv(w, steps[0]);
      StepOnItsWay(w, steps[0], p, src);
      RunOnItsWay(Apply(w, steps[0]), steps[1..], v, p, src);
    }
  }

  // ---------- the bytes ----------

  ghost predicate InStepIfFilling(w: World, p: Pid) {
    p in w.procs && w.procs[p].pc.Filling? ==> InStep(w, p)
  }

  lemma StepKeepsInStep(w: World, s: Step, p: Pid, src: Source)
    requires Inv(w) && Enabled(w, s) && OnItsWay(w, p, src) && InStepIfFilling(w, p) && s != Finish(p)
    requires p in w.procs && Copies(w.procs[p].pc) ==> Ahead(w, p, s)
    requires (s.Request? || s.Export?) ==> s.p != p
    ensures InStepIfFilling(Apply(w, s), p)
  {
    if p in w.procs && w.procs[p].pc.Filling? {
      StepStaysInStepIff(w, s, p);
    } else if s.MapNew? && s.p == p {
      MapNewParts(w, p, s.addr, s.granted);
      if s.granted { MapNewStartsInStep(w, p, s.addr); }
    } else if p in w.procs && s.p != p {
      StepKeepsOthersPc(w, s, p);
    }
  }

  lemma {:induction false} RunKeepsInStep(w: World, steps: seq<Step>, v: World, p: Pid, src: Source)
    requires Inv(w) && Run(w, steps, v) && p < w.spawned && OnItsWay(w, p, src) && InStepIfFilling(w, p)
    requires NoNewJob(steps, p) && NoFinish(steps, p) && WritesAhead(w, steps, p)
    ensures InStepIfFilling(v, p)
    decreases |steps|
  {
    if steps != [] {
      assert NoNewJob(steps[1..], p) && NoFinish(steps[1..], p);
      StepKeepsInv(w, steps[0]);
      StepOnItsWay(w, steps[0], p, src);
      StepKeepsInStep(w, steps[0], p, src);
      RunKeepsInStep(Apply(w, steps[0]), steps[1..], v, p, src);
    }
  }

  /** A run that does not write to the source has no write behind the copy. */
  lemma {:induction false} QuietRunIsAhead(w: World, steps: seq<Step>, v: World, p: Pid, src: Source)
    requires Inv(w) && Run(w, steps, v) && p < w.spawned && OnItsWay(w, p, src) && NoNewJob(steps, p)
    requires src.CopyOf? ==> NeverWrites(steps, src.x.id)
    ensures WritesAhead(w, steps, p)
    decreases |steps|
  {
    if steps != [] {
      assert NoNewJob(steps[1..], p);
      StepKeepsInv(w, steps[0]);
      StepOnItsWay(w, steps[0], p, src);
      QuietRunIsAhead(Apply(w, steps[0]), steps[1..], v, p, src);
    }
  }

  // ---------- the main result ----------

  /** A process asked for a vector to be shared, and is about to finish it; meanwhile it started
      nothing else, and anybody did anything. */
  ghost predicate Shares(w: World, p: Pid, src: Source, steps: seq<Step>, v: World) {
    && Inv(w) && Enabled(w, Request(p, src)) && Run(Apply(w, Request(p, src)), steps, v)
    && NoNewJob(steps, p) && NoFinish(steps, p) && Enabled(v, Finish(p))
  }

  /** The vector a process is about to finish. */
  ghost function NewVector(v: World, p: Pid): Wrapper {
    if p in v.procs && v.procs[p].pc.Filling? then v.procs[p].pc.x else Wrapper(0, 0)
  }

  lemma SharingParts(w: World, p: Pid, src: Source, steps: seq<Step>, v: World)
    requires Shares(w, p, src, steps, v)
    ensures Inv(v) && v.procs[p].pc.Filling? && v.procs[p].pc.src == src
    ensures WritesAhead(Apply(w, Request(p, src)), steps, p) ==> InStep(v, p)
    ensures (src.CopyOf? ==> NeverWrites(steps, src.x.id)) ==> WritesAhead(Apply(w, Request(p, src)), steps, p)
  {
    var w' := Apply(w, Request(p, src));
    assert ProcOk(w, p);
    StepKeepsInv(w, Request(p, src));
    RunOnItsWay(w', steps, v, p, src);
    if WritesAhead(w', steps, p) { RunKeepsInStep(w', steps, v, p, src); }
    if src.CopyOf? ==> NeverWrites(steps, src.x.id) { QuietRunIsAhead(w', steps, v, p, src); }
  }

  /** What is shared is what was asked for: the finished vector holds the given bytes, in order, or
      what the source of the copy holds then, if all writes to it meanwhile were ahead of the copy.
      It is mapped under an id of its own, and its source, if it is a copy, is another segment. */
  lemma SharedVectorIsItsSource(w: World, p: Pid, src: Source, steps: seq<Step>, v: World)
    requires Shares(w, p, src, steps, v) && WritesAhead(Apply(w, Request(p, src)), steps, p)
    ensures var y := NewVector(v, p);
            var u := Apply(v, Finish(p));
            && Inv(u) && Holds(u, p, y) && Finished(u, y.id) && y.id in u.born && u.born[y.id].creator == p
            && (src.Bytes? ==> View(u, p, y) == src.bytes)
            && (src.CopyOf? ==>
                  && Holds(u, p, src.x) && View(u, p, y) == View(u, p, src.x)
                  && src.x.id != y.id && src.x.id in u.born && u.born[src.x.id].seg != u.born[y.id].seg)
  {
    SharingParts(w, p, src, steps, v);
    FinishEndsTheCopy(v, p);
    FillingParts(v, p);
    if src.CopyOf? {
      WrappersAreAliases(Apply(v, Finish(p)), p, src.x, p, v.procs[p].pc.x);
    }
  }

  /** If nobody wrote to the source of a copy at all, that is what it held at the request. */
  lemma SharedCopyHoldsItsSource(w: World, p: Pid, x: Wrapper, steps: seq<Step>, v: World)
    requires Shares(w, p, CopyOf(x), steps, v) && NeverWrites(steps, x.id)
    ensures WritesAhead(Apply(w, Request(p, CopyOf(x))), steps, p)
    ensures View(Apply(v, Finish(p)), p, NewVector(v, p)) == View(w, p, x)
  {
    var w' := Apply(w, Request(p, CopyOf(x)));
    SharingParts(w, p, CopyOf(x), steps, v);
    SharedVectorIsItsSource(w, p, CopyOf(x), steps, v);
    StepKeepsInv(w, Request(p, CopyOf(x)));
    SourceParts(w', p);
    SourceParts(v, p);
    FinishEndsTheCopy(v, p);
    QuietRunKeepsView(w', steps, v, p, x, p, x);
    assert View(w', p, x) == View(w, p, x);
  }

  /** A vector that is shared for its bytes: whoever holds it after any later run reads them, unless
      somebody writes to it. */
  lemma SharedBytesAreRead(
      w: World, p: Pid, bytes: seq<Byte>, steps: seq<Step>, v: World, more: seq<Step>, t: World, q: Pid, z: Wrapper)
    requires Shares(w, p, Bytes(bytes), steps, v) && Run(Apply(v, Finish(p)), more, t)
    requires Holds(t, q, z) && z.id == NewVector(v, p).id && NeverWrites(more, z.id)
    ensures Inv(t) && View(t, q, z) == bytes
  {
    SharingParts(w, p, Bytes(bytes), steps, v);
    SharedVectorIsItsSource(w, p, Bytes(bytes), steps, v);
    FillingParts(v, p);
    QuietRunKeepsView(Apply(v, Finish(p)), more, t, p, v.procs[p].pc.x, q, z);
    RunKeepsInv(Apply(v, Finish(p)), more, t);
  }
}
