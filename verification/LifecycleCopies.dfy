/**
  New vectors, copies of shared vectors, and the private copies that are sent when a name is gone.
  The bytes are copied one by one, and any process that holds the source may write to it meanwhile.
 */
module LifecycleCopies {
  import opened OperatingSystem
  import opened SharedObject
  import opened SharedMemoryRegistry
  import opened Lifecycle
  import opened LifecycleInvariant
  import opened LifecycleTheorems

  /** The copy agrees with its source as far as it has come. */
  ghost predicate InStep(w: World, p: Pid) {
    && p in w.procs && Copies(w.procs[p].pc)
    && var pc := w.procs[p].pc;
       var bytes := SourceBytes(w, p, pc.src);
       && Done(pc) <= |bytes| == Goal(w, p)
       && (if pc.Filling? then View(w, p, pc.x)[..pc.done] else pc.bytes) == bytes[..Done(pc)]
  }

  ghost predicate WritesSource(pc: Pc, s: Step) {
    !pc.Idle? && pc.src.CopyOf? && s.Write? && s.x.id == pc.src.x.id
  }

  /** A write to the source is at a place not yet copied, or changes nothing. */
  ghost predicate Ahead(w: World, p: Pid, s: Step)
    requires p in w.procs && Copies(w.procs[p].pc)
  {
    var pc := w.procs[p].pc;
    var bytes := SourceBytes(w, p, pc.src);
    WritesSource(pc, s) ==> s.at >= Done(pc) || (s.at < |bytes| && s.b == bytes[s.at])
  }

  /** The same copy, further on. */
  ghost predicate SameCopy(pc: Pc, pc': Pc) {
    && Copies(pc) && Copies(pc') && pc'.src == pc.src
    && if pc.Filling? then pc'.Filling? && pc'.id == pc.id && pc'.x == pc.x else pc'.Exporting?
  }

  // ---------- the steps of a copy ----------

  /** A process that copies can always go on, or has come to the end. */
  lemma FillGoesOn(w: World, p: Pid)
    requires Inv(w) && p in w.procs && Copies(w.procs[p].pc)
    ensures Enabled(w, Fill(p)) <==> !Enabled(w, Finish(p))
    ensures Enabled(w, Finish(p)) <==> Done(w.procs[p].pc) >= |SourceBytes(w, p, w.procs[p].pc.src)|
  {
    if w.procs[p].pc.Filling? { FillingParts(w, p); }
  }

  /** While a vector is filled, nobody but its creator has it. */
  lemma UnfinishedIsPrivate(w: World, p: Pid, q: Pid, y: Wrapper)
    requires Inv(w) && p in w.procs && w.procs[p].pc.Filling? && Holds(w, q, y) && y.id == w.procs[p].pc.id
    ensures q == p
  {
    FillingParts(w, p);
    assert WrapperOk(w, q, y);
  }

  /** The source of a copy is there. */
  lemma SourceParts(w: World, p: Pid)
    requires Inv(w) && p in w.procs && !w.procs[p].pc.Idle? && w.procs[p].pc.src.CopyOf?
    ensures var x := w.procs[p].pc.src.x; Holds(w, p, x) && Points(w, p, x) && Finished(w, x.id)
  {
    assert PcOk(w, p) && WrapperOk(w, p, w.procs[p].pc.src.x);
  }

  lemma OthersKeepPc(w: World, s: Step, p: Pid)
    requires Inv(w) && Enabled(w, s) && p in w.procs && Copies(w.procs[p].pc)
    requires s != Fill(p) && s != Finish(p)
    ensures p in Apply(w, s).procs && Apply(w, s).procs[p].pc == w.procs[p].pc
  {
    match s
    case Spawn(q) => assert ProcOk(w, q);
    case Import(q, token, addr, granted) =>
      if token.Ref? { AttachKeepsSystem(w, q, token.id, addr, granted); }
    case DuplicateAlias(q, x, addr, granted) => AttachKeepsSystem(w, q, x.id, addr, granted);
    case _ =>
  }

  /** No other process's step, and no finalizer, touches the bytes of a vector that is being filled. */
  lemma OthersKeepNewBytes(w: World, s: Step, p: Pid)
    requires Inv(w) && Enabled(w, s) && p in w.procs && w.procs[p].pc.Filling?
    requires s != Fill(p) && s != Finish(p)
    ensures var v, pc := Apply(w, s), w.procs[p].pc;
            && p in v.procs && v.procs[p].pc == pc
            && Points(v, p, pc.x) && View(v, p, pc.x) == View(w, p, pc.x)
  {
    var v, pc := Apply(w, s), w.procs[p].pc;
    FillingParts(w, p);
    StepKeepsBirth(w, s, pc.id);
    assert BirthOk(w, pc.id);
    OthersKeepPc(w, s, p);
    StepKeepsInv(w, s);
    FillingParts(v, p);
    match s
    case Create(q, fate) => CreateKeepsBytes(w, q, fate, pc.id);
    case MapNew(q, addr, granted) => MapNewParts(w, q, addr, granted);
    case Fill(q) =>
      if w.procs[q].pc.Filling? { FillingParts(w, q); }
      FillKeepsBytes(w, q, pc.id);
    case Write(q, x, at, b) =>
      assert WrapperOk(w, q, x);
      if x.id == pc.id { UnfinishedIsPrivate(w, p, q, x); }
      assert SegsDistinct(w, pc.id, x.id);
    case Import(q, token, addr, granted) =>
      if token.Ref? { AttachKeepsSystem(w, q, token.id, addr, granted); }
    case DuplicateAlias(q, x, addr, granted) => AttachKeepsSystem(w, q, x.id, addr, granted);
    case Finalize(q, x) => FinalizeKeepsBytes(w, q, x);
    case _ =>
  }

  /** The source of a copy reads the same after a step that does not write to it. */
  lemma StepKeepsSource(w: World, s: Step, p: Pid)
    requires Inv(w) && Enabled(w, s) && p in w.procs && Copies(w.procs[p].pc)
    requires s != Finish(p) && !WritesSource(w.procs[p].pc, s)
    ensures p in Apply(w, s).procs && SameCopy(w.procs[p].pc, Apply(w, s).procs[p].pc)
    ensures SourceBytes(Apply(w, s), p, w.procs[p].pc.src) == SourceBytes(w, p, w.procs[p].pc.src)
  {
    var pc := w.procs[p].pc;
    if s != Fill(p) { OthersKeepPc(w, s, p); }
    StepKeepsInv(w, s);
    if pc.src.CopyOf? {
      SourceParts(w, p);
      SourceParts(Apply(w, s), p);
      StepKeepsBytes(w, s, pc.src.x.id);
    }
  }

  lemma FillCopiesOne(w: World, p: Pid)
    requires Inv(w) && Enabled(w, Fill(p)) && InStep(w, p)
    ensures InStep(Apply(w, Fill(p)), p)
  {
    var v, pc := Apply(w, Fill(p)), w.procs[p].pc;
    var bytes := SourceBytes(w, p, pc.src);
    StepKeepsSource(w, Fill(p), p);
    assert bytes[..Done(pc) + 1] == bytes[..Done(pc)] + [bytes[Done(pc)]];
    if pc.Filling? {
      FillingParts(w, p);
      StepKeepsInv(w, Fill(p));
      FillingParts(v, p);
      assert View(v, p, pc.x) == View(w, p, pc.x)[..pc.done] + [bytes[pc.done]] + View(w, p, pc.x)[pc.done + 1..];
    }
  }

  lemma OthersStayInStep(w: World, s: Step, p: Pid)
    requires Inv(w) && Enabled(w, s) && InStep(w, p) && s != Fill(p) && s != Finish(p)
    requires !WritesSource(w.procs[p].pc, s)
    ensures InStep(Apply(w, s), p)
  {
    StepKeepsSource(w, s, p);
    OthersKeepPc(w, s, p);
    if w.procs[p].pc.Filling? { OthersKeepNewBytes(w, s, p); }
  }

  /** A write to the source during the copy goes through to the copy if and only if the copy has
      not yet come to that place (or the write changes nothing). Otherwise the copy is torn. */
  lemma WriteDuringCopyIsCopiedIff(w: World, p: Pid, q: Pid, x: Wrapper, at: nat, b: Byte)
    requires Inv(w) && InStep(w, p) && Enabled(w, Write(q, x, at, b))
    requires WritesSource(w.procs[p].pc, Write(q, x, at, b))
    ensures var v, src := Apply(w, Write(q, x, at, b)), w.procs[p].pc.src;
            && p in v.procs && v.procs[p].pc == w.procs[p].pc
            && at < |SourceBytes(w, p, src)| && SourceBytes(v, p, src) == SourceBytes(w, p, src)[at := b]
            && (InStep(v, p) <==> Ahead(w, p, Write(q, x, at, b)))
  {
    var s, pc := Write(q, x, at, b), w.procs[p].pc;
    var v, bytes := Apply(w, s), SourceBytes(w, p, pc.src);
    SourceParts(w, p);
    WrappersAreAliases(w, p, pc.src.x, q, x);
    WriteIsSeenByAliasesOnly(w, q, x, at, b, p, pc.src.x);
    OthersKeepPc(w, s, p);
    if pc.Filling? { OthersKeepNewBytes(w, s, p); }
    assert SourceBytes(v, p, pc.src) == bytes[at := b];
    PrefixAfterWrite(bytes, Done(pc), at, b);
  }

  lemma PrefixAfterWrite(bytes: seq<Byte>, done: nat, at: nat, b: Byte)
    requires done <= |bytes| && at < |bytes|
    ensures bytes[at := b][..done] == bytes[..done] <==> at >= done || b == bytes[at]
  {
    if at < done {
      assert bytes[at := b][..done][at] == b && bytes[..done][at] == bytes[at];
      if b == bytes[at] { assert bytes[at := b] == bytes; }
    } else {
      assert bytes[at := b][..done] == bytes[..done];
    }
  }

  /** A step keeps the copy in step if and only if it is no write behind it. */
  lemma StepStaysInStepIff(w: World, s: Step, p: Pid)
    requires Inv(w) && Enabled(w, s) && InStep(w, p) && s != Finish(p)
    ensures p in Apply(w, s).procs && SameCopy(w.procs[p].pc, Apply(w, s).procs[p].pc)
    ensures InStep(Apply(w, s), p) <==> Ahead(w, p, s)
  {
    if WritesSource(w.procs[p].pc, s) {
      WriteDuringCopyIsCopiedIff(w, p, s.p, s.x, s.at, s.b);
    } else {
      StepKeepsSource(w, s, p);
      if s == Fill(p) { FillCopiesOne(w, p); } else { OthersStayInStep(w, s, p); }
    }
  }

  // ---------- whole runs ----------

  ghost predicate NoFinish(steps: seq<Step>, p: Pid) {
    forall i :: 0 <= i < |steps| ==> steps[i] != Finish(p)
  }

  /** Every write to the source of what `p` copies is ahead of the copy. */
  ghost predicate WritesAhead(w: World, steps: seq<Step>, p: Pid)
    decreases |steps|
  {
    steps != [] && Enabled(w, steps[0]) ==>
      && (p in w.procs && Copies(w.procs[p].pc) ==> Ahead(w, p, steps[0]))
      && WritesAhead(Apply(w, steps[0]), steps[1..], p)
  }

  /** Over any run in which all writes to the source are ahead of the copy, it stays in step. */
  lemma {:induction false} RunStaysInStep(w: World, steps: seq<Step>, v: World, p: Pid)
    requires Inv(w) && Run(w, steps, v) && InStep(w, p) && NoFinish(steps, p) && WritesAhead(w, steps, p)
    ensures Inv(v) && InStep(v, p) && SameCopy(w.procs[p].pc, v.procs[p].pc)
    decreases |steps|
  {
    if steps != [] {
      assert NoFinish(steps[1..], p);
      StepKeepsInv(w, steps[0]);
      StepStaysInStepIff(w, steps[0], p);
      RunStaysInStep(Apply(w, steps[0]), steps[1..], v, p);
    }
  }

  ghost predicate SourceLeftAlone(pc: Pc, steps: seq<Step>) {
    !pc.Idle? && pc.src.CopyOf? ==> NeverWrites(steps, pc.src.x.id)
  }

  /** If nobody writes to the source, all writes are ahead, and it reads the same in the end. */
  lemma {:induction false} RunKeepsSource(w: World, steps: seq<Step>, v: World, p: Pid)
    requires Inv(w) && Run(w, steps, v) && p in w.procs && Copies(w.procs[p].pc) && NoFinish(steps, p)
    requires SourceLeftAlone(w.procs[p].pc, steps)
    ensures WritesAhead(w, steps, p)
    ensures SourceBytes(v, p, w.procs[p].pc.src) == SourceBytes(w, p, w.procs[p].pc.src)
    decreases |steps|
  {
    if steps != [] {
      assert NoFinish(steps[1..], p);
      StepKeepsInv(w, steps[0]);
      StepKeepsSource(w, steps[0], p);
      RunKeepsSource(Apply(w, steps[0]), steps[1..], v, p);
    }
  }

  // ---------- new vectors ----------

  lemma MapNewStartsInStep(w: World, p: Pid, addr: Addr)
    requires Inv(w) && Enabled(w, MapNew(p, addr, true))
    ensures var v, pc := AfterMapNew(w, p, addr, true), w.procs[p].pc;
            && Inv(v) && InStep(v, p) && SourceBytes(v, p, pc.src) == SourceBytes(w, p, pc.src)
            && v.procs[p].pc == Filling(pc.src, pc.id, Wrapper(pc.id, addr), 0)
  {
    var v, pc := AfterMapNew(w, p, addr, true), w.procs[p].pc;
    MapNewParts(w, p, addr, true);
    MapNewKeepsInv(w, p, addr, true);
    FillingParts(v, p);
    if pc.src.CopyOf? {
      SourceParts(w, p);
      SourceParts(v, p);
      StepKeepsBytes(w, MapNew(p, addr, true), pc.src.x.id);
    }
  }

  lemma FinishEndsTheCopy(v: World, p: Pid)
    requires Inv(v) && Enabled(v, Finish(p)) && InStep(v, p)
    ensures var u, pc := Apply(v, Finish(p)), v.procs[p].pc;
            var bytes := SourceBytes(v, p, pc.src);
            && Inv(u) && (pc.Exporting? ==> Plain(bytes) in u.tokens)
            && (pc.Filling? ==> Holds(u, p, pc.x) && Finished(u, pc.x.id) && View(u, p, pc.x) == bytes)
            && (pc.src.CopyOf? ==> Holds(u, p, pc.src.x) && Finished(u, pc.src.x.id) && View(u, p, pc.src.x) == bytes)
            && (pc.Filling? && pc.src.CopyOf? ==> pc.src.x.id != pc.x.id)
  {
    var u, pc := Apply(v, Finish(p)), v.procs[p].pc;
    var bytes := SourceBytes(v, p, pc.src);
    FillGoesOn(v, p);
    StepKeepsInv(v, Finish(p));
    assert bytes[..|bytes|] == bytes;
    if pc.src.CopyOf? {
      SourceParts(v, p);
      assert Points(u, p, pc.src.x);
    }
    if pc.Filling? {
      FillingParts(v, p);
      assert Points(u, p, pc.x) && View(v, p, pc.x)[..|bytes|] == View(v, p, pc.x);
    }
  }

  /** A new vector that is finished holds what its source holds then, if all writes to the source
      of a copy meanwhile were ahead of the copy. A copy has another id than its source and another
      segment. */
  lemma FinishedVectorIsItsSource(w: World, p: Pid, addr: Addr, steps: seq<Step>, v: World)
    requires Inv(w) && Enabled(w, MapNew(p, addr, true)) && Run(AfterMapNew(w, p, addr, true), steps, v)
    requires NoFinish(steps, p) && Enabled(v, Finish(p)) && WritesAhead(AfterMapNew(w, p, addr, true), steps, p)
    ensures var src, y := w.procs[p].pc.src, Wrapper(w.procs[p].pc.id, addr);
            var u := Apply(v, Finish(p));
            && Inv(u) && Holds(u, p, y) && Finished(u, y.id) && View(u, p, y) == SourceBytes(v, p, src)
            && (src.CopyOf? ==>
                  && Holds(u, p, src.x) && Finished(u, src.x.id) && View(u, p, src.x) == View(u, p, y)
                  && src.x.id != y.id && u.born[src.x.id].seg != u.born[y.id].seg)
  {
    var src, y := w.procs[p].pc.src, Wrapper(w.procs[p].pc.id, addr);
    MapNewStartsInStep(w, p, addr);
    RunStaysInStep(AfterMapNew(w, p, addr, true), steps, v, p);
    FinishEndsTheCopy(v, p);
    if src.CopyOf? {
      WrappersAreAliases(Apply(v, Finish(p)), p, src.x, p, y);
    }
  }

  /** If nobody wrote to the source at all, that is what it held when the new vector was mapped. */
  lemma FinishedVectorHoldsItsSource(w: World, p: Pid, addr: Addr, steps: seq<Step>, v: World)
    requires Inv(w) && Enabled(w, MapNew(p, addr, true)) && Run(AfterMapNew(w, p, addr, true), steps, v)
    requires NoFinish(steps, p) && Enabled(v, Finish(p)) && SourceLeftAlone(w.procs[p].pc, steps)
    ensures WritesAhead(AfterMapNew(w, p, addr, true), steps, p)
    ensures SourceBytes(v, p, w.procs[p].pc.src) == SourceBytes(w, p, w.procs[p].pc.src)
    ensures var y := Wrapper(w.procs[p].pc.id, addr);
            var u := Apply(v, Finish(p));
            Inv(u) && Holds(u, p, y) && Finished(u, y.id) && View(u, p, y) == SourceBytes(w, p, w.procs[p].pc.src)
  {
    MapNewStartsInStep(w, p, addr);
    RunKeepsSource(AfterMapNew(w, p, addr, true), steps, v, p);
    FinishedVectorIsItsSource(w, p, addr, steps, v);
  }

  /** From then on the two are independent: over any run, those who hold the source read what it
      held when the copy was finished unless somebody writes to the source, and those who hold the
      copy read the same unless somebody writes to the copy. */
  lemma SharedCopyStaysApart(
      w: World, p: Pid, addr: Addr, steps: seq<Step>, v: World, more: seq<Step>, t: World, q: Pid, z: Wrapper)
    requires Inv(w) && Enabled(w, MapNew(p, addr, true)) && Run(AfterMapNew(w, p, addr, true), steps, v)
    requires NoFinish(steps, p) && Enabled(v, Finish(p)) && WritesAhead(AfterMapNew(w, p, addr, true), steps, p)
    requires w.procs[p].pc.src.CopyOf?
    requires Run(Apply(v, Finish(p)), more, t) && Holds(t, q, z) && NeverWrites(more, z.id)
    requires z.id == w.procs[p].pc.id || z.id == w.procs[p].pc.src.x.id
    ensures View(t, q, z) == View(v, p, w.procs[p].pc.src.x)
  {
    var u := Apply(v, Finish(p));
    FinishedVectorIsItsSource(w, p, addr, steps, v);
    if z.id == w.procs[p].pc.id {
      QuietRunKeepsView(u, more, t, p, Wrapper(z.id, addr), q, z);
    } else {
      QuietRunKeepsView(u, more, t, p, w.procs[p].pc.src.x, q, z);
    }
  }

  // ---------- private copies ----------

  /** A vector whose name is gone is serialized as its bytes: what is sent is what the vector holds
      when the copy is done, if all writes to it meanwhile were ahead of the copy. */
  lemma ExportedCopyIsItsSource(w: World, p: Pid, x: Wrapper, steps: seq<Step>, v: World)
    requires Inv(w) && Enabled(w, Export(p, x)) && !HasName(w, x.id) && Run(Apply(w, Export(p, x)), steps, v)
    requires NoFinish(steps, p) && Enabled(v, Finish(p)) && WritesAhead(Apply(w, Export(p, x)), steps, p)
    ensures Holds(v, p, x) && Plain(View(v, p, x)) in Apply(v, Finish(p)).tokens
  {
    var w' := Apply(w, Export(p, x));
    ExportKeepsInv(w, p, x);
    SourceParts(w', p);
    assert InStep(w', p);
    RunStaysInStep(w', steps, v, p);
    SourceParts(v, p);
    FinishEndsTheCopy(v, p);
  }

  /** If nobody wrote to it at all, that is what it held when it was serialized. */
  lemma ExportedCopyHoldsItsSource(w: World, p: Pid, x: Wrapper, steps: seq<Step>, v: World)
    requires Inv(w) && Enabled(w, Export(p, x)) && !HasName(w, x.id) && Run(Apply(w, Export(p, x)), steps, v)
    requires NoFinish(steps, p) && Enabled(v, Finish(p)) && NeverWrites(steps, x.id)
    ensures Plain(View(w, p, x)) in Apply(v, Finish(p)).tokens
  {
    var w' := Apply(w, Export(p, x));
    ExportKeepsInv(w, p, x);
    RunKeepsSource(w', steps, v, p);
    ExportedCopyIsItsSource(w, p, x, steps, v);
    assert View(w', p, x) == View(w, p, x);
  }

  // ---------- aliases ----------

  /** With copy-on-write off, a duplicate is the same pointer once more; it cannot fail. */
  lemma DuplicateAliasIsTheSamePointer(w: World, p: Pid, x: Wrapper, addr: Addr, granted: bool)
    requires Inv(w) && Enabled(w, DuplicateAlias(p, x, addr, granted))
    ensures var v := Apply(w, DuplicateAlias(p, x, addr, granted));
            v.os == w.os && v.procs[p].wrappers == w.procs[p].wrappers + multiset{x}
  {
    assert WrapperOk(w, p, x) && ProcOk(w, p);
    MapHealthy(w.os, w.procs[p].reg, Data(x.id), addr, granted);
    MappedConsistent(w.os, Data(x.id), w.procs[p].reg.list[Data(x.id)], addr, granted);
  }
}
