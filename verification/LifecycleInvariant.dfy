/** Every step of the multi-process machine keeps its invariant. */
module LifecycleInvariant {
  import opened Wrappers
  import opened OperatingSystem
  import opened SharedObject
  import opened SharedMemoryRegistry
  import opened Lifecycle

  lemma StartInv()
    ensures Inv(START)
  {
  }

  lemma SpawnKeepsInv(w: World, p: Pid)
    requires Inv(w) && Enabled(w, Spawn(p))
    ensures Inv(Apply(w, Spawn(p)))
  {
    var v := Apply(w, Spawn(p));
    assert p !in w.procs by { assert ProcOk(w, p); }
    forall id ensures NameOk(v, id) { assert NameOk(w, id) && BirthOk(w, id); }
    forall id ensures BirthOk(v, id) { assert BirthOk(w, id); }
    forall i, j ensures SegsDistinct(v, i, j) { assert SegsDistinct(w, i, j); }
    forall q ensures ProcOk(v, q) { assert ProcOk(w, q); }
    forall q, id ensures EntryOk(v, q, id) { assert EntryOk(w, q, id) && BirthOk(w, id); }
    forall q, id ensures HeldOk(v, q, id) { assert HeldOk(w, q, id) && BirthOk(w, id); }
    forall q, id ensures CountOk(v, q, id) { assert CountOk(w, q, id); }
    forall q, x ensures WrapperOk(v, q, x) { assert WrapperOk(w, q, x); }
    forall q, r, id ensures PickedOk(v, q, r, id) { assert PickedOk(w, q, r, id); }
    forall q ensures PcOk(v, q) { assert PcOk(w, q); }
    forall t ensures TokenOk(v, t) { assert TokenOk(w, t); }
  }

  /** Moving to another phase without touching the registry, keeping the picked id if there is one. */
  lemma PhaseKeepsInv(w: World, p: Pid, pc: Pc)
    requires Inv(w) && p in w.procs && !pc.Created? && !pc.Filling? && !w.procs[p].pc.Created?
    requires forall id :: Picked(pc, id) ==> Picked(w.procs[p].pc, id)
    requires !pc.Idle? && pc.src.CopyOf? ==> pc.src.x in w.procs[p].wrappers && Finished(w, pc.src.x.id)
    ensures Inv(Put(w, p, w.procs[p].(pc := pc)))
  {
    var v := Put(w, p, w.procs[p].(pc := pc));
    forall id ensures NameOk(v, id) { assert NameOk(w, id); }
    forall id ensures BirthOk(v, id) { assert BirthOk(w, id); }
    forall i, j ensures SegsDistinct(v, i, j) { assert SegsDistinct(w, i, j); }
    forall q ensures ProcOk(v, q) { assert ProcOk(w, q); }
    forall q, id ensures EntryOk(v, q, id) { assert EntryOk(w, q, id); }
    forall q, id ensures HeldOk(v, q, id) { assert HeldOk(w, q, id) && EntryOk(w, q, id); }
    forall q, id ensures CountOk(v, q, id) { assert CountOk(w, q, id); }
    forall q, x ensures WrapperOk(v, q, x) { assert WrapperOk(w, q, x); }
    forall q, r, id ensures PickedOk(v, q, r, id) { assert PickedOk(w, q, r, id); }
    forall q ensures PcOk(v, q) { assert PcOk(w, q); }
    forall t ensures TokenOk(v, t) { assert TokenOk(w, t); }
  }

  /** The incremented id is larger than all listed, picked or created before. */
  lemma IncrementKeepsInv(w: World, p: Pid)
    requires Inv(w) && Enabled(w, Increment(p))
    ensures Inv(Apply(w, Increment(p)))
  {
    var v := Apply(w, Increment(p));
    forall id ensures NameOk(v, id) { assert NameOk(w, id); }
    forall id ensures BirthOk(v, id) { assert BirthOk(w, id); }
    forall i, j ensures SegsDistinct(v, i, j) { assert SegsDistinct(w, i, j); }
    forall q ensures ProcOk(v, q) { assert ProcOk(w, q); }
    forall q, id ensures EntryOk(v, q, id) { assert EntryOk(w, q, id); }
    forall q, id ensures HeldOk(v, q, id) { assert HeldOk(w, q, id) && EntryOk(w, q, id); }
    forall q, id ensures CountOk(v, q, id) { assert CountOk(w, q, id); }
    forall q, x ensures WrapperOk(v, q, x) { assert WrapperOk(w, q, x); }
    forall q, r, id ensures PickedOk(v, q, r, id) {
      assert PickedOk(w, q, r, id) && PickedOk(w, r, q, id);
      assert BirthOk(w, id) && EntryOk(w, r, id);
    }
    forall q ensures PcOk(v, q) { assert PcOk(w, q); }
    forall t ensures TokenOk(v, t) { assert TokenOk(w, t); }
  }

  lemma WriteKeepsInv(w: World, p: Pid, x: Wrapper, at: nat, b: Byte)
    requires Inv(w) && Enabled(w, Write(p, x, at, b))
    ensures Inv(Apply(w, Write(p, x, at, b)))
  {
    var v := Apply(w, Write(p, x, at, b));
    BytesKeepInv(w, v.os);
  }

  /** Changing bytes within their segments changes nothing else. */
  lemma BytesKeepInv(w: World, os: Os)
    requires Inv(w) && os.names == w.os.names && os.next == w.os.next
    requires os.segments.Keys == w.os.segments.Keys
    requires forall s :: s in w.os.segments ==> |os.segments[s]| == |w.os.segments[s]|
    ensures Inv(w.(os := os))
  {
    var v := w.(os := os);
    assert os.Valid();
    forall id ensures NameOk(v, id) { assert NameOk(w, id); }
    forall id ensures BirthOk(v, id) { assert BirthOk(w, id); }
    forall i, j ensures SegsDistinct(v, i, j) { assert SegsDistinct(w, i, j); }
    forall q ensures ProcOk(v, q) { assert ProcOk(w, q); }
    forall q, id ensures EntryOk(v, q, id) { assert EntryOk(w, q, id); }
    forall q, id ensures HeldOk(v, q, id) { assert HeldOk(w, q, id) && EntryOk(w, q, id); }
    forall q, id ensures CountOk(v, q, id) { assert CountOk(w, q, id); }
    forall q, x ensures WrapperOk(v, q, x) { assert WrapperOk(w, q, x); }
    forall q, r, id ensures PickedOk(v, q, r, id) { assert PickedOk(w, q, r, id); }
    forall q ensures PcOk(v, q) { assert PcOk(w, q); }
    forall t ensures TokenOk(v, t) { assert TokenOk(w, t); }
  }

  lemma TokenKeepsInv(w: World, token: Token)
    requires Inv(w) && (token.Ref? ==> Finished(w, token.id) && token.seg == w.born[token.id].seg)
    ensures Inv(w.(tokens := w.tokens + {token}))
  {
    var v := w.(tokens := w.tokens + {token});
    forall id ensures NameOk(v, id) { assert NameOk(w, id); }
    forall id ensures BirthOk(v, id) { assert BirthOk(w, id); }
    forall i, j ensures SegsDistinct(v, i, j) { assert SegsDistinct(w, i, j); }
    forall q ensures ProcOk(v, q) { assert ProcOk(w, q); }
    forall q, id ensures EntryOk(v, q, id) { assert EntryOk(w, q, id); }
    forall q, id ensures HeldOk(v, q, id) { assert HeldOk(w, q, id); }
    forall q, id ensures CountOk(v, q, id) { assert CountOk(w, q, id); }
    forall q, y ensures WrapperOk(v, q, y) { assert WrapperOk(w, q, y); }
    forall q, r, id ensures PickedOk(v, q, r, id) { assert PickedOk(w, q, r, id); }
    forall q ensures PcOk(v, q) { assert PcOk(w, q); }
    forall t ensures TokenOk(v, t) { assert TokenOk(w, t); }
  }

  lemma ExportKeepsInv(w: World, p: Pid, x: Wrapper)
    requires Inv(w) && Enabled(w, Export(p, x))
    ensures Inv(Apply(w, Export(p, x)))
  {
    assert WrapperOk(w, p, x);
    if HasName(w, x.id) {
      TokenKeepsInv(w, RefTo(w, x.id));
    } else {
      PhaseKeepsInv(w, p, Exporting(CopyOf(x), []));
    }
  }

  // ---------- creating a segment ----------

  ghost predicate OthersSame(os: Os, reg: Registry, os': Os, reg': Registry, k: Key) {
    forall id {:trigger Data(id)} :: Data(id) != k ==> SameAt(os, reg, os', reg', Data(id))
  }

  /** What a first allocation under a fresh id does, in the shape the invariant speaks about. */
  ghost predicate CreateShape(w: World, p: Pid, os: Os, reg: Registry, ok: bool)
    requires p in w.procs && w.procs[p].pc.Chosen?
  {
    var k := Data(w.procs[p].pc.id);
    var n := SourceSize(w, w.procs[p].pc.src);
    && Healthy(os, reg) && Extends(w.os, os)
    && k in reg.list && reg.list[k].region.None? && !reg.list[k].ownData
    && OthersSame(w.os, w.procs[p].reg, os, reg, k)
    && reg.Count(k) == w.procs[p].reg.Count(k)
    && if ok then
         && reg.list[k].handle == Some(w.os.next) && os.names == w.os.names[k := w.os.next]
         && w.os.next in os.segments && |os.segments[w.os.next]| == if n > 0 then n else 1
       else
         reg.list[k].handle.None? && os.names == w.os.names
  }

  lemma CreateHasShape(w: World, p: Pid, fate: Fate)
    requires Inv(w) && Enabled(w, Create(p, fate))
    ensures var id := w.procs[p].pc.id;
            var n := SourceSize(w, w.procs[p].pc.src);
            var s := Allocate(w.os, w.procs[p].reg, Data(id), n, fate);
            CreateShape(w, p, s.os, s.reg, s.r.Ok?)
  {
    var reg, id := w.procs[p].reg, w.procs[p].pc.id;
    var n := SourceSize(w, w.procs[p].pc.src);
    assert ProcOk(w, p);
    assert PickedOk(w, p, p, id);
    assert NameOk(w, id);
    AllocateHealthy(w.os, reg, Data(id), n, fate);
    forall j | Data(j) != Data(id)
      ensures var s := Allocate(w.os, reg, Data(id), n, fate); SameAt(w.os, reg, s.os, s.reg, Data(j))
    {
      AllocateFrame(w.os, reg, Data(id), n, fate, Data(j));
    }
    AllocatedConsistent(w.os, Data(id), NewEntry(n), fate);
  }

  ghost function Unborn(w: World, p: Pid, os: Os, reg: Registry): World
    requires p in w.procs && w.procs[p].pc.Chosen?
  {
    Put(w, p, w.procs[p].(reg := reg, pc := Idle)).(os := os)
  }

  lemma CreateRefusedKeepsEntries(w: World, p: Pid, os: Os, reg: Registry)
    requires Inv(w) && p in w.procs && w.procs[p].pc.Chosen? && CreateShape(w, p, os, reg, false)
    ensures EntriesInv(Unborn(w, p, os, reg))
  {
    var v := Unborn(w, p, os, reg);
    assert PickedOk(w, p, p, w.procs[p].pc.id);
    forall q ensures ProcOk(v, q) { assert ProcOk(w, q); }
    forall q, id ensures EntryOk(v, q, id) { assert EntryOk(w, q, id); }
    forall q, id ensures HeldOk(v, q, id) { assert HeldOk(w, q, id) && EntryOk(w, q, id); }
    forall q, id ensures CountOk(v, q, id) { assert CountOk(w, q, id); }
    forall q, x ensures WrapperOk(v, q, x) { assert WrapperOk(w, q, x); }
  }

  lemma CreateRefusedKeepsInv(w: World, p: Pid, os: Os, reg: Registry)
    requires Inv(w) && p in w.procs && w.procs[p].pc.Chosen? && CreateShape(w, p, os, reg, false)
    ensures Inv(Unborn(w, p, os, reg))
  {
    var v := Unborn(w, p, os, reg);
    CreateRefusedKeepsEntries(w, p, os, reg);
    assert PickedOk(w, p, p, w.procs[p].pc.id);
    forall id ensures NameOk(v, id) { assert NameOk(w, id); }
    forall id ensures BirthOk(v, id) { assert BirthOk(w, id); }
    forall i, j ensures SegsDistinct(v, i, j) { assert SegsDistinct(w, i, j); }
    forall q, r, id ensures PickedOk(v, q, r, id) {
      assert PickedOk(w, q, r, id) && PickedOk(w, p, q, id);
    }
    forall q ensures PcOk(v, q) { assert PcOk(w, q); }
    forall t ensures TokenOk(v, t) { assert TokenOk(w, t); }
  }

  ghost function Born(w: World, p: Pid, os: Os, reg: Registry): World
    requires p in w.procs && w.procs[p].pc.Chosen?
  {
    var pc := w.procs[p].pc;
    Put(w, p, w.procs[p].(reg := reg, pc := Created(pc.src, pc.id)))
      .(os := os, born := w.born[pc.id := Birth(p, w.os.next, SourceSize(w, pc.src))])
  }

  lemma BornKeepsIds(w: World, p: Pid, os: Os, reg: Registry)
    requires Inv(w) && p in w.procs && w.procs[p].pc.Chosen? && CreateShape(w, p, os, reg, true)
    ensures IdsInv(Born(w, p, os, reg))
  {
    var v := Born(w, p, os, reg);
    var picked := w.procs[p].pc.id;
    assert PickedOk(w, p, p, picked) && BirthOk(w, picked) && ProcOk(w, p);
    forall id ensures NameOk(v, id) { assert NameOk(w, id); }
    forall id ensures BirthOk(v, id) { assert BirthOk(w, id); }
    forall i, j ensures SegsDistinct(v, i, j) { assert SegsDistinct(w, i, j) && BirthOk(w, i) && BirthOk(w, j); }
    forall t ensures TokenOk(v, t) { assert TokenOk(w, t); }
  }

  lemma BornKeepsEntries(w: World, p: Pid, os: Os, reg: Registry)
    requires Inv(w) && p in w.procs && w.procs[p].pc.Chosen? && CreateShape(w, p, os, reg, true)
    ensures EntriesInv(Born(w, p, os, reg))
  {
    var v := Born(w, p, os, reg);
    var picked := w.procs[p].pc.id;
    assert PickedOk(w, p, p, picked) && BirthOk(w, picked);
    forall q ensures ProcOk(v, q) { assert ProcOk(w, q); }
    forall q, id ensures EntryOk(v, q, id) { assert EntryOk(w, q, id) && PickedOk(w, p, q, picked); }
    forall q, id ensures HeldOk(v, q, id) { assert HeldOk(w, q, id) && EntryOk(w, q, id); }
    forall q, id ensures CountOk(v, q, id) { assert CountOk(w, q, id); }
    forall q, x ensures WrapperOk(v, q, x) { assert WrapperOk(w, q, x); }
  }

  lemma BornKeepsPcs(w: World, p: Pid, os: Os, reg: Registry)
    requires Inv(w) && p in w.procs && w.procs[p].pc.Chosen? && CreateShape(w, p, os, reg, true)
    ensures PcsInv(Born(w, p, os, reg))
  {
    var v := Born(w, p, os, reg);
    var picked := w.procs[p].pc.id;
    forall q, r, id ensures PickedOk(v, q, r, id) {
      assert PickedOk(w, q, r, id) && PickedOk(w, p, q, picked) && PickedOk(w, q, p, id);
    }
    forall q ensures PcOk(v, q) {
      assert PickedOk(w, p, q, picked) && PcOk(w, q) && BirthOk(w, picked);
      if q in w.procs && !w.procs[q].pc.Idle? && w.procs[q].pc.src.CopyOf? {
        assert WrapperOk(w, q, w.procs[q].pc.src.x);
      }
    }
  }

  lemma CreateKeepsInv(w: World, p: Pid, fate: Fate)
    requires Inv(w) && Enabled(w, Create(p, fate))
    ensures Inv(Apply(w, Create(p, fate)))
  {
    var pc := w.procs[p].pc;
    var s := Allocate(w.os, w.procs[p].reg, Data(pc.id), SourceSize(w, pc.src), fate);
    CreateHasShape(w, p, fate);
    if s.r.Ok? {
      BornKeepsIds(w, p, s.os, s.reg);
      BornKeepsEntries(w, p, s.os, s.reg);
      BornKeepsPcs(w, p, s.os, s.reg);
      assert Apply(w, Create(p, fate)) == Born(w, p, s.os, s.reg);
    } else {
      CreateRefusedKeepsInv(w, p, s.os, s.reg);
      assert Apply(w, Create(p, fate)) == Unborn(w, p, s.os, s.reg);
    }
  }

  // ---------- mapping ----------

  /** What a map call does to the registry, in the shape the invariant speaks about. */
  ghost predicate MapShape(os: Os, reg: Registry, reg': Registry, k: Key, ok: bool) {
    && Healthy(os, reg') && OthersSame(os, reg, os, reg', k) && k in reg'.list
    && var e := if k in reg.list then reg.list[k] else NewEntry(0);
       var e' := reg'.list[k];
    && (ok <==> e'.region.Some?)
    && (e.region.Some? ==> e'.region == e.region)
    && e'.handle == (if e.handle.Some? then e.handle else if k in os.names then Some(os.names[k]) else None)
    && e'.ownData == e.ownData
    && reg'.Count(k) == (if k in reg.list then reg.Count(k) else 0) + if ok then 1 else 0
  }

  lemma MapHasShape(os: Os, reg: Registry, id: nat, addr: Addr, granted: bool)
    requires Healthy(os, reg)
    ensures var s := Map(os, reg, Data(id), addr, granted);
            && s.os == os && MapShape(os, reg, s.reg, Data(id), s.r.Ok?)
            && (s.r.Ok? ==> s.r.value == s.reg.list[Data(id)].region.value.addr)
  {
    MapHealthy(os, reg, Data(id), addr, granted);
    forall j | Data(j) != Data(id)
      ensures SameAt(os, reg, os, Map(os, reg, Data(id), addr, granted).reg, Data(j))
    {
      MapFrame(os, reg, Data(id), addr, granted, Data(j));
    }
    var e := if Data(id) in reg.list then reg.list[Data(id)] else NewEntry(0);
    MappedConsistent(os, Data(id), e, addr, granted);
  }

  /** In a process that may map the id, the entry before the call looks like this. */
  lemma EntryBefore(w: World, p: Pid, id: nat)
    requires Inv(w) && p in w.procs && HandedOut(w, id)
    ensures var reg := w.procs[p].reg;
            var k := Data(id);
            && (k !in reg.list ==> reg.Count(k) == 0)
            && (k in w.os.names ==> w.os.names[k] == w.born[id].seg)
            && (!reg.HasRegion(k) && w.born[id].creator == p ==>
                  k !in w.os.names && (k in reg.list ==> reg.list[k].handle.None?))
            && 1 <= id <= w.lastId
  {
    assert EntryOk(w, p, id) && HeldOk(w, p, id) && CountOk(w, p, id) && NameOk(w, id) && BirthOk(w, id);
  }

  ghost function Attached(w: World, p: Pid, id: nat, reg: Registry, ok: bool): World
    requires p in w.procs && (ok ==> reg.HasRegion(Data(id)))
  {
    var proc := w.procs[p];
    if ok then
      Put(w, p, proc.(reg := reg, wrappers :=
                        proc.wrappers + multiset{Wrapper(id, reg.list[Data(id)].region.value.addr)}))
        .(refused := w.refused - {(p, id)})
    else
      Put(w, p, proc.(reg := reg)).(refused := w.refused + if Opens(w, p, id) then {(p, id)} else {})
  }

  lemma AttachKeepsEntries(w: World, p: Pid, id: nat, reg: Registry, ok: bool)
    requires Inv(w) && p in w.procs && w.procs[p].pc.Idle? && Finished(w, id)
    requires MapShape(w.os, w.procs[p].reg, reg, Data(id), ok)
    ensures EntriesInv(Attached(w, p, id, reg, ok))
  {
    var v := Attached(w, p, id, reg, ok);
    EntryBefore(w, p, id);
    forall q ensures ProcOk(v, q) { assert ProcOk(w, q); }
    forall q, j ensures EntryOk(v, q, j) { assert EntryOk(w, q, j); }
    forall q, j ensures HeldOk(v, q, j) { assert HeldOk(w, q, j) && EntryOk(w, q, j); }
    AttachKeepsWrappers(w, p, id, reg, ok);
  }

  lemma AttachKeepsWrappers(w: World, p: Pid, id: nat, reg: Registry, ok: bool)
    requires Inv(w) && p in w.procs && w.procs[p].pc.Idle? && Finished(w, id)
    requires MapShape(w.os, w.procs[p].reg, reg, Data(id), ok)
    requires forall j :: EntryOk(Attached(w, p, id, reg, ok), p, j)
    ensures forall q, j :: CountOk(Attached(w, p, id, reg, ok), q, j)
    ensures forall q, x :: WrapperOk(Attached(w, p, id, reg, ok), q, x)
  {
    var v := Attached(w, p, id, reg, ok);
    EntryBefore(w, p, id);
    forall q, j ensures CountOk(v, q, j) {
      assert CountOk(w, q, j);
      if q == p && j == id && reg.HasRegion(Data(id)) {
        AttachCounts(w, p, id, reg, ok);
      }
    }
    forall q, x ensures WrapperOk(v, q, x) {
      assert WrapperOk(w, q, x) && BirthOk(w, id);
      if q == p && x.id == id && ok {
        assert EntryOk(v, p, id);
      }
    }
  }

  lemma AttachCounts(w: World, p: Pid, id: nat, reg: Registry, ok: bool)
    requires Inv(w) && p in w.procs && HandedOut(w, id) && reg.HasRegion(Data(id))
    requires MapShape(w.os, w.procs[p].reg, reg, Data(id), ok)
    ensures var x := Wrapper(id, reg.list[Data(id)].region.value.addr);
            reg.Count(Data(id)) == w.procs[p].wrappers[x] + 1
  {
    var x := Wrapper(id, reg.list[Data(id)].region.value.addr);
    assert CountOk(w, p, id) && WrapperOk(w, p, x);
    EntryBefore(w, p, id);
  }

  lemma AttachedKeepsInv(w: World, p: Pid, id: nat, reg: Registry, ok: bool)
    requires Inv(w) && p in w.procs && w.procs[p].pc.Idle? && Finished(w, id)
    requires MapShape(w.os, w.procs[p].reg, reg, Data(id), ok)
    ensures Inv(Attached(w, p, id, reg, ok))
  {
    var v := Attached(w, p, id, reg, ok);
    EntryBefore(w, p, id);
    AttachKeepsEntries(w, p, id, reg, ok);
    forall j ensures NameOk(v, j) { assert NameOk(w, j); }
    forall j ensures BirthOk(v, j) { assert BirthOk(w, j); }
    forall i, j ensures SegsDistinct(v, i, j) { assert SegsDistinct(w, i, j); }
    forall q, r, j ensures PickedOk(v, q, r, j) { assert PickedOk(w, q, r, j); }
    forall q ensures PcOk(v, q) { assert PcOk(w, q); }
    forall t ensures TokenOk(v, t) { assert TokenOk(w, t); }
  }

  lemma AttachKeepsInv(w: World, p: Pid, id: nat, addr: Addr, granted: bool)
    requires Inv(w) && p in w.procs && w.procs[p].pc.Idle? && Finished(w, id)
    ensures Inv(Attach(w, p, id, addr, granted))
  {
    var s := Map(w.os, w.procs[p].reg, Data(id), addr, granted);
    assert ProcOk(w, p);
    MapHasShape(w.os, w.procs[p].reg, id, addr, granted);
    AttachedKeepsInv(w, p, id, s.reg, s.r.Ok?);
    assert Attach(w, p, id, addr, granted) == Attached(w, p, id, s.reg, s.r.Ok?);
  }

  // ---------- mapping a new segment ----------

  /** The registry once the new entry is owned. */
  ghost predicate OwnShape(os: Os, reg: Registry, reg': Registry, k: Key) {
    && Healthy(os, reg') && OthersSame(os, reg, os, reg', k)
    && k in reg.list && k in reg'.list && reg'.HasRegion(k)
    && reg'.list[k].handle == reg.list[k].handle && reg'.list[k].ownData
    && reg'.Count(k) == reg.Count(k) + 1
  }

  ghost function Owned(w: World, p: Pid, reg: Registry): World
    requires p in w.procs && w.procs[p].pc.Created? && reg.HasRegion(Data(w.procs[p].pc.id))
  {
    var id := w.procs[p].pc.id;
    var x := Wrapper(id, reg.list[Data(id)].region.value.addr);
    Put(w, p, Proc(reg, w.procs[p].wrappers + multiset{x}, Filling(w.procs[p].pc.src, id, x, 0)))
  }

  lemma OwnedKeepsEntries(w: World, p: Pid, reg: Registry)
    requires Inv(w) && p in w.procs && w.procs[p].pc.Created?
    requires OwnShape(w.os, w.procs[p].reg, reg, Data(w.procs[p].pc.id))
    ensures EntriesInv(Owned(w, p, reg))
  {
    var v := Owned(w, p, reg);
    var id := w.procs[p].pc.id;
    var x := Wrapper(id, reg.list[Data(id)].region.value.addr);
    assert PcOk(w, p) && EntryOk(w, p, id) && HeldOk(w, p, id) && CountOk(w, p, id);
    assert BirthOk(w, id) && WrapperOk(w, p, x);
    forall q ensures ProcOk(v, q) { assert ProcOk(w, q); }
    forall q, j ensures EntryOk(v, q, j) { assert EntryOk(w, q, j); }
    forall q, j ensures HeldOk(v, q, j) { assert HeldOk(w, q, j) && EntryOk(w, q, j); }
    forall q, j ensures CountOk(v, q, j) { assert CountOk(w, q, j); }
    forall q, y ensures WrapperOk(v, q, y) { assert WrapperOk(w, q, y); }
  }

  lemma OwnedKeepsInv(w: World, p: Pid, reg: Registry)
    requires Inv(w) && p in w.procs && w.procs[p].pc.Created?
    requires OwnShape(w.os, w.procs[p].reg, reg, Data(w.procs[p].pc.id))
    ensures Inv(Owned(w, p, reg))
  {
    var v := Owned(w, p, reg);
    OwnedKeepsEntries(w, p, reg);
    assert PcOk(w, p);
    forall j ensures NameOk(v, j) { assert NameOk(w, j); }
    forall j ensures BirthOk(v, j) { assert BirthOk(w, j); }
    forall i, j ensures SegsDistinct(v, i, j) { assert SegsDistinct(w, i, j); }
    forall q, r, j ensures PickedOk(v, q, r, j) { assert PickedOk(w, q, r, j); }
    forall q ensures PcOk(v, q) { assert PcOk(w, q); }
    forall t ensures TokenOk(v, t) { assert TokenOk(w, t); }
  }

  /** The system refused the mapping: the segment and its name are orphaned. */
  ghost function Orphaned(w: World, p: Pid, reg: Registry): World
    requires p in w.procs && w.procs[p].pc.Created?
  {
    Put(w, p, w.procs[p].(reg := reg, pc := Idle)).(orphans := w.orphans + {w.procs[p].pc.id})
  }

  lemma OrphanKeepsEntries(w: World, p: Pid, reg: Registry)
    requires Inv(w) && p in w.procs && w.procs[p].pc.Created?
    requires MapShape(w.os, w.procs[p].reg, reg, Data(w.procs[p].pc.id), false)
    ensures EntriesInv(Orphaned(w, p, reg))
  {
    var v := Orphaned(w, p, reg);
    assert PcOk(w, p);
    forall q ensures ProcOk(v, q) { assert ProcOk(w, q); }
    forall q, j ensures EntryOk(v, q, j) { assert EntryOk(w, q, j); }
    forall q, j ensures HeldOk(v, q, j) { assert HeldOk(w, q, j) && EntryOk(w, q, j); }
    forall q, j ensures CountOk(v, q, j) { assert CountOk(w, q, j); }
    forall q, x ensures WrapperOk(v, q, x) { assert WrapperOk(w, q, x); }
  }

  lemma OrphanKeepsInv(w: World, p: Pid, reg: Registry)
    requires Inv(w) && p in w.procs && w.procs[p].pc.Created?
    requires MapShape(w.os, w.procs[p].reg, reg, Data(w.procs[p].pc.id), false)
    ensures Inv(Orphaned(w, p, reg))
  {
    var v := Orphaned(w, p, reg);
    OrphanKeepsEntries(w, p, reg);
    assert PcOk(w, p);
    forall j ensures NameOk(v, j) { assert NameOk(w, j); }
    forall j ensures BirthOk(v, j) { assert BirthOk(w, j); }
    forall i, j ensures SegsDistinct(v, i, j) { assert SegsDistinct(w, i, j); }
    forall q, r, j ensures PickedOk(v, q, r, j) { assert PickedOk(w, q, r, j); }
    forall q ensures PcOk(v, q) { assert PcOk(w, q); }
    forall t ensures TokenOk(v, t) { assert TokenOk(w, t); }
  }

  /** The new segment is mapped exactly when that is granted: then it is owned and wrapped, and
      the source has as many bytes as it can take; otherwise its name is orphaned. */
  lemma MapNewParts(w: World, p: Pid, addr: Addr, granted: bool)
    requires Inv(w) && Enabled(w, MapNew(p, addr, granted))
    ensures var id := w.procs[p].pc.id;
            var s := Map(w.os, w.procs[p].reg, Data(id), addr, granted);
            && id in w.born && |SourceBytes(w, p, w.procs[p].pc.src)| == w.born[id].n
            && (granted ==>
                  var reg := AutoRelease(w.os, s.reg, Data(id), true).reg;
                  && OwnShape(w.os, w.procs[p].reg, reg, Data(id))
                  && AfterMapNew(w, p, addr, true) == Owned(w, p, reg)
                  && reg.list[Data(id)].region == Some(Region(addr, w.born[id].seg)))
            && (!granted ==>
                  && MapShape(w.os, w.procs[p].reg, s.reg, Data(id), false)
                  && AfterMapNew(w, p, addr, false) == Orphaned(w, p, s.reg))
  {
    var id, src := w.procs[p].pc.id, w.procs[p].pc.src;
    var s := Map(w.os, w.procs[p].reg, Data(id), addr, granted);
    assert ProcOk(w, p) && PcOk(w, p) && BirthOk(w, id) && EntryOk(w, p, id);
    MapHasShape(w.os, w.procs[p].reg, id, addr, granted);
    if src.CopyOf? {
      assert WrapperOk(w, p, src.x);
    }
  }

  lemma MapNewKeepsInv(w: World, p: Pid, addr: Addr, granted: bool)
    requires Inv(w) && Enabled(w, MapNew(p, addr, granted))
    ensures Inv(Apply(w, MapNew(p, addr, granted)))
  {
    var s := Map(w.os, w.procs[p].reg, Data(w.procs[p].pc.id), addr, granted);
    MapNewParts(w, p, addr, granted);
    if granted {
      OwnedKeepsInv(w, p, AutoRelease(w.os, s.reg, Data(w.procs[p].pc.id), true).reg);
    } else {
      OrphanKeepsInv(w, p, s.reg);
    }
  }

  // ---------- filling ----------

  /** What a process that fills its new segment can rely on. */
  lemma FillingParts(w: World, p: Pid)
    requires Inv(w) && p in w.procs && w.procs[p].pc.Filling?
    ensures var pc := w.procs[p].pc;
            && Points(w, p, pc.x) && pc.x.id == pc.id && pc.x in w.procs[p].wrappers
            && HandedOut(w, pc.id) && w.born[pc.id].creator == p
            && pc.done <= |View(w, p, pc.x)| == |SourceBytes(w, p, pc.src)| == w.born[pc.id].n
            && (pc.src.CopyOf? ==> pc.src.x in w.procs[p].wrappers && Points(w, p, pc.src.x)
                                   && Finished(w, pc.src.x.id) && pc.src.x.id != pc.id)
  {
    var pc := w.procs[p].pc;
    assert PcOk(w, p) && WrapperOk(w, p, pc.x);
    if pc.src.CopyOf? {
      assert WrapperOk(w, p, pc.src.x);
    }
  }

  lemma AdvanceKeepsInv(w: World, p: Pid)
    requires Inv(w) && Enabled(w, Fill(p)) && w.procs[p].pc.Filling?
    ensures Inv(Put(w, p, w.procs[p].(pc := w.procs[p].pc.(done := w.procs[p].pc.done + 1))))
  {
    var v := Put(w, p, w.procs[p].(pc := w.procs[p].pc.(done := w.procs[p].pc.done + 1)));
    FillingParts(w, p);
    forall id ensures NameOk(v, id) { assert NameOk(w, id); }
    forall id ensures BirthOk(v, id) { assert BirthOk(w, id); }
    forall i, j ensures SegsDistinct(v, i, j) { assert SegsDistinct(w, i, j); }
    forall q ensures ProcOk(v, q) { assert ProcOk(w, q); }
    forall q, id ensures EntryOk(v, q, id) { assert EntryOk(w, q, id); }
    forall q, id ensures HeldOk(v, q, id) { assert HeldOk(w, q, id); }
    forall q, id ensures CountOk(v, q, id) { assert CountOk(w, q, id); }
    forall q, x ensures WrapperOk(v, q, x) { assert WrapperOk(w, q, x); }
    forall q, r, id ensures PickedOk(v, q, r, id) { assert PickedOk(w, q, r, id); }
    forall q ensures PcOk(v, q) { assert PcOk(w, q); }
    forall t ensures TokenOk(v, t) { assert TokenOk(w, t); }
  }

  lemma FillKeepsInv(w: World, p: Pid)
    requires Inv(w) && Enabled(w, Fill(p))
    ensures Inv(Apply(w, Fill(p)))
  {
    var pc := w.procs[p].pc;
    if pc.Exporting? {
      assert PcOk(w, p);
      PhaseKeepsInv(w, p, pc.(bytes := pc.bytes + [SourceBytes(w, p, pc.src)[|pc.bytes|]]));
    } else {
      AdvanceKeepsInv(w, p);
      BytesKeepInv(Put(w, p, w.procs[p].(pc := pc.(done := pc.done + 1))), Apply(w, Fill(p)).os);
    }
  }

  lemma FinishKeepsInv(w: World, p: Pid)
    requires Inv(w) && Enabled(w, Finish(p))
    ensures Inv(Apply(w, Finish(p)))
  {
    var v := Put(w, p, w.procs[p].(pc := Idle));
    PhaseKeepsInv(w, p, Idle);
    if w.procs[p].pc.Exporting? {
      TokenKeepsInv(v, Plain(w.procs[p].pc.bytes));
    } else {
      assert Apply(w, Finish(p)) == v;
    }
  }

  // ---------- finalizing ----------

  /** What a finalizer's unmap does: one fewer, and with the last one the entry goes, and the
      owner's name with it. */
  ghost predicate UnmapShape(os: Os, reg: Registry, os': Os, reg': Registry, k: Key) {
    && k in reg.list
    && Healthy(os', reg') && OthersSame(os, reg, os', reg', k)
    && os'.segments == os.segments && os'.next == os.next
    && reg'.Count(k) == reg.Count(k) - 1
    && if reg.Count(k) > 1 then
         k in reg'.list && reg'.list[k] == reg.list[k] && os' == os
       else
         k !in reg'.list && os'.names == if reg.list[k].ownData then os.names - {k} else os.names
  }

  lemma UnmapHasShape(os: Os, reg: Registry, id: nat)
    requires Healthy(os, reg) && Data(id) in reg.list
    ensures var s := Unmap(os, reg, Data(id)); UnmapShape(os, reg, s.os, s.reg, Data(id))
  {
    forall j | Data(j) != Data(id)
      ensures var s := Unmap(os, reg, Data(id)); SameAt(os, reg, s.os, s.reg, Data(j))
    {
      UnmapFrame(os, reg, Data(id), Data(j));
    }
  }

  ghost function Finalized(w: World, p: Pid, x: Wrapper, os: Os, reg: Registry): World
    requires p in w.procs
  {
    Put(w, p, w.procs[p].(reg := reg, wrappers := w.procs[p].wrappers - multiset{x})).(os := os)
  }

  lemma FinalizedKeepsEntries(w: World, p: Pid, x: Wrapper, os: Os, reg: Registry)
    requires Inv(w) && MayFinalize(w, p, x)
    requires UnmapShape(w.os, w.procs[p].reg, os, reg, Data(x.id))
    ensures EntriesInv(Finalized(w, p, x, os, reg))
  {
    var v := Finalized(w, p, x, os, reg);
    forall q ensures ProcOk(v, q) { assert ProcOk(w, q); }
    forall q, j ensures EntryOk(v, q, j) { assert EntryOk(w, q, j); }
    FinalizedKeepsHeld(w, p, x, os, reg);
    FinalizedKeepsCounts(w, p, x, os, reg);
    FinalizedKeepsWrappers(w, p, x, os, reg);
  }

  lemma FinalizedKeepsHeld(w: World, p: Pid, x: Wrapper, os: Os, reg: Registry)
    requires Inv(w) && MayFinalize(w, p, x)
    requires UnmapShape(w.os, w.procs[p].reg, os, reg, Data(x.id))
    ensures forall q, j :: HeldOk(Finalized(w, p, x, os, reg), q, j)
  {
    var v := Finalized(w, p, x, os, reg);
    assert WrapperOk(w, p, x);
    forall q, j ensures HeldOk(v, q, j) { assert HeldOk(w, q, j); }
  }

  lemma FinalizedKeepsWrappers(w: World, p: Pid, x: Wrapper, os: Os, reg: Registry)
    requires Inv(w) && MayFinalize(w, p, x)
    requires UnmapShape(w.os, w.procs[p].reg, os, reg, Data(x.id))
    ensures forall q, y :: WrapperOk(Finalized(w, p, x, os, reg), q, y)
  {
    var v := Finalized(w, p, x, os, reg);
    assert WrapperOk(w, p, x) && CountOk(w, p, x.id);
    forall q, y ensures WrapperOk(v, q, y) { assert WrapperOk(w, q, y); }
  }

  lemma FinalizedKeepsCounts(w: World, p: Pid, x: Wrapper, os: Os, reg: Registry)
    requires Inv(w) && MayFinalize(w, p, x)
    requires UnmapShape(w.os, w.procs[p].reg, os, reg, Data(x.id))
    ensures forall q, j :: CountOk(Finalized(w, p, x, os, reg), q, j)
  {
    var v := Finalized(w, p, x, os, reg);
    assert WrapperOk(w, p, x) && CountOk(w, p, x.id);
    forall q, j ensures CountOk(v, q, j) { assert CountOk(w, q, j); }
  }

  lemma FinalizedKeepsInv(w: World, p: Pid, x: Wrapper, os: Os, reg: Registry)
    requires Inv(w) && MayFinalize(w, p, x)
    requires UnmapShape(w.os, w.procs[p].reg, os, reg, Data(x.id))
    ensures Inv(Finalized(w, p, x, os, reg))
  {
    var v := Finalized(w, p, x, os, reg);
    FinalizedKeepsEntries(w, p, x, os, reg);
    FinalizedKeepsNames(w, p, x, os, reg);
    forall j ensures BirthOk(v, j) { assert BirthOk(w, j); }
    forall i, j ensures SegsDistinct(v, i, j) { assert SegsDistinct(w, i, j); }
    FinalizedKeepsPcs(w, p, x, os, reg);
    forall t ensures TokenOk(v, t) { assert TokenOk(w, t); }
  }

  lemma FinalizedKeepsPcs(w: World, p: Pid, x: Wrapper, os: Os, reg: Registry)
    requires Inv(w) && MayFinalize(w, p, x)
    requires UnmapShape(w.os, w.procs[p].reg, os, reg, Data(x.id))
    ensures PcsInv(Finalized(w, p, x, os, reg))
  {
    var v := Finalized(w, p, x, os, reg);
    assert WrapperOk(w, p, x);
    forall q, r, j ensures PickedOk(v, q, r, j) { assert PickedOk(w, q, r, j); }
    forall q ensures PcOk(v, q) { FinalizedKeepsPc(w, p, x, os, reg, q); }
  }

  lemma FinalizedKeepsPc(w: World, p: Pid, x: Wrapper, os: Os, reg: Registry, q: Pid)
    requires Inv(w) && MayFinalize(w, p, x)
    requires UnmapShape(w.os, w.procs[p].reg, os, reg, Data(x.id))
    ensures PcOk(Finalized(w, p, x, os, reg), q)
  {
    FinalizedKeepsSource(w, p, x, os, reg, q);
    FinalizedKeepsMaking(w, p, x, os, reg, q);
  }

  lemma FinalizedKeepsSource(w: World, p: Pid, x: Wrapper, os: Os, reg: Registry, q: Pid)
    requires Inv(w) && MayFinalize(w, p, x)
    ensures SourceOk(Finalized(w, p, x, os, reg), q)
  {
    var v := Finalized(w, p, x, os, reg);
    assert PcOk(w, q);
    if q in w.procs && !w.procs[q].pc.Idle? && w.procs[q].pc.src.CopyOf? {
      assert v.procs[q].wrappers[w.procs[q].pc.src.x] >= 1;
    }
  }

  lemma FinalizedKeepsMaking(w: World, p: Pid, x: Wrapper, os: Os, reg: Registry, q: Pid)
    requires Inv(w) && MayFinalize(w, p, x)
    requires UnmapShape(w.os, w.procs[p].reg, os, reg, Data(x.id))
    ensures MakingOk(Finalized(w, p, x, os, reg), q)
  {
    var v := Finalized(w, p, x, os, reg);
    assert PcOk(w, q);
    if q in w.procs && w.procs[q].pc.Created? {
      FinalizedKeepsHeld(w, p, x, os, reg);
      assert HeldOk(w, q, w.procs[q].pc.id) && HeldOk(v, q, w.procs[q].pc.id);
    } else if q in w.procs && w.procs[q].pc.Filling? {
      assert v.procs[q].wrappers[w.procs[q].pc.x] >= 1;
    }
  }

  lemma FinalizedKeepsNames(w: World, p: Pid, x: Wrapper, os: Os, reg: Registry)
    requires Inv(w) && MayFinalize(w, p, x)
    requires UnmapShape(w.os, w.procs[p].reg, os, reg, Data(x.id))
    ensures forall j :: NameOk(Finalized(w, p, x, os, reg), j)
  {
    var v := Finalized(w, p, x, os, reg);
    assert WrapperOk(w, p, x) && CountOk(w, p, x.id) && EntryOk(w, p, x.id);
    forall j ensures NameOk(v, j) { assert NameOk(w, j); }
  }

  lemma FinalizeKeepsInv(w: World, p: Pid, x: Wrapper)
    requires Inv(w) && Enabled(w, Finalize(p, x))
    ensures Inv(Apply(w, Finalize(p, x)))
  {
    assert WrapperOk(w, p, x) && ProcOk(w, p);
    var s := Unmap(w.os, w.procs[p].reg, Data(x.id));
    UnmapHasShape(w.os, w.procs[p].reg, x.id);
    FinalizedKeepsInv(w, p, x, s.os, s.reg);
  }

  // ---------- exit ----------

  /** A process owns exactly the ids it created and still maps. */
  lemma OwnsWhatItCreated(w: World, p: Pid, id: nat)
    requires Inv(w) && p in w.procs && Data(id) in w.procs[p].reg.list
    ensures w.procs[p].reg.list[Data(id)].ownData
            <==> w.procs[p].reg.HasRegion(Data(id)) && id in w.born && w.born[id].creator == p
    ensures w.procs[p].reg.HasRegion(Data(id)) ==> HandedOut(w, id)
  {
    assert EntryOk(w, p, id) && CountOk(w, p, id);
    if w.procs[p].reg.HasRegion(Data(id)) {
      assert WrapperOk(w, p, Wrapper(id, w.procs[p].reg.list[Data(id)].region.value.addr));
    }
  }

  lemma ExitKeepsNames(w: World, p: Pid)
    requires Inv(w) && Enabled(w, Exit(p))
    ensures forall id :: NameOk(AfterExit(w, p), id)
  {
    var v := AfterExit(w, p);
    forall id ensures NameOk(v, id) {
      assert NameOk(w, id);
      if Data(id) in w.procs[p].reg.list {
        OwnsWhatItCreated(w, p, id);
      }
    }
  }

  lemma ExitKeepsInv(w: World, p: Pid)
    requires Inv(w) && Enabled(w, Exit(p))
    ensures Inv(Apply(w, Exit(p)))
  {
    var v := AfterExit(w, p);
    ExitKeepsNames(w, p);
    forall j ensures BirthOk(v, j) { assert BirthOk(w, j); }
    forall i, j ensures SegsDistinct(v, i, j) { assert SegsDistinct(w, i, j); }
    forall q ensures ProcOk(v, q) { assert ProcOk(w, q); }
    forall q, j ensures EntryOk(v, q, j) { assert EntryOk(w, q, j); }
    forall q, j ensures HeldOk(v, q, j) { assert HeldOk(w, q, j) && EntryOk(w, q, j); }
    forall q, j ensures CountOk(v, q, j) { assert CountOk(w, q, j); }
    forall q, x ensures WrapperOk(v, q, x) { assert WrapperOk(w, q, x); }
    forall q, r, j ensures PickedOk(v, q, r, j) { assert PickedOk(w, q, r, j); }
    forall q ensures PcOk(v, q) { assert PcOk(w, q); }
    forall t ensures TokenOk(v, t) { assert TokenOk(w, t); }
  }

  // ---------- all steps, all runs ----------

  lemma StepKeepsInv(w: World, s: Step)
    requires Inv(w) && Enabled(w, s)
    ensures Inv(Apply(w, s))
  {
    match s
    case Spawn(p) => SpawnKeepsInv(w, p);
    case Request(p, src) =>
      if src.CopyOf? { assert WrapperOk(w, p, src.x); }
      PhaseKeepsInv(w, p, Searching(src));
    case Increment(p) => IncrementKeepsInv(w, p);
    case Check(p) =>
      assert PcOk(w, p);
      PhaseKeepsInv(w, p, Apply(w, s).procs[p].pc);
    case Create(p, fate) => CreateKeepsInv(w, p, fate);
    case MapNew(p, addr, granted) => MapNewKeepsInv(w, p, addr, granted);
    case Fill(p) => FillKeepsInv(w, p);
    case Finish(p) => FinishKeepsInv(w, p);
    case Write(p, x, at, b) => WriteKeepsInv(w, p, x, at, b);
    case Export(p, x) => ExportKeepsInv(w, p, x);
    case Import(p, token, addr, granted) =>
      assert TokenOk(w, token);
      if token.Ref? { AttachKeepsInv(w, p, token.id, addr, granted); }
    case DuplicateAlias(p, x, addr, granted) =>
      assert WrapperOk(w, p, x);
      AttachKeepsInv(w, p, x.id, addr, granted);
    case Finalize(p, x) => FinalizeKeepsInv(w, p, x);
    case Exit(p) => ExitKeepsInv(w, p);
  }

  /** Every state of every run of any number of processes satisfies the invariant. */
  lemma {:induction false} RunKeepsInv(w: World, steps: seq<Step>, v: World)
    requires Inv(w) && Run(w, steps, v)
    ensures Inv(v)
    decreases |steps|
  {
    if steps != [] {
      StepKeepsInv(w, steps[0]);
      RunKeepsInv(Apply(w, steps[0]), steps[1..], v);
    }
  }
}
