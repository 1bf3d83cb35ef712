/**
  Shared objects across processes. Any number of R processes create, export, receive, duplicate,
  write and finalize wrappers of shared vectors (src/altrep.cpp, src/numericAltrepOperations.cpp);
  every process runs its own registry, and all share the operating system and the id counter.
  Other processes may act between any two steps.
 */
module Lifecycle {
  import opened Wrappers
  import opened OperatingSystem
  import opened SharedObject
  import opened SharedMemoryRegistry
  import opened IdSearch

  type Pid = nat

  /** An external pointer with its finalizer: the id is its tag, the address its target. */
  datatype Wrapper = Wrapper(id: nat, addr: Addr)

  /** What a new shared vector is filled with. A shared copy reads its source byte by byte. */
  datatype Source = Bytes(bytes: seq<Byte>) | CopyOf(x: Wrapper)

  /** Where a process stands in creating or sending a shared vector. */
  datatype Pc =
    | Idle
    | Searching(src: Source)           // about to increment the shared counter
    | Checking(src: Source, id: nat)   // about to ask whether the id is in use
    | Chosen(src: Source, id: nat)     // about to create the segment
    | Created(src: Source, id: nat)    // about to map it
    | Filling(src: Source, id: nat, x: Wrapper, done: nat)   // mapped, owned and wrapped; copying the bytes
    | Exporting(src: Source, bytes: seq<Byte>)               // the name is gone: copying the bytes to send

  datatype Proc = Proc(reg: Registry, wrappers: multiset<Wrapper>, pc: Pc)

  /** A serialized vector: the id (and, for the record, the segment it meant), or plain data. */
  datatype Token = Ref(id: nat, seg: SegId) | Plain(bytes: seq<Byte>)

  /** For the record: who created an id, the segment it was given, and its length in bytes. */
  datatype Birth = Birth(creator: Pid, seg: SegId, n: nat)

  datatype World = World(
    os: Os, lastId: nat, procs: map<Pid, Proc>, tokens: set<Token>,
    // for the record: the new segments whose mapping was refused, and where the mapping of a
    // received one was refused after it could be opened, and has not succeeded since
    spawned: nat, born: map<nat, Birth>, orphans: set<nat>, refused: set<(Pid, nat)>)

  datatype Step =
    | Spawn(p: Pid)
    | Request(p: Pid, src: Source)
    | Increment(p: Pid)
    | Check(p: Pid)
    | Create(p: Pid, fate: Fate)
    | MapNew(p: Pid, addr: Addr, granted: bool)
    | Fill(p: Pid)                     // copies one byte of a new vector, or of one that is sent
    | Finish(p: Pid)
    | Write(p: Pid, x: Wrapper, at: nat, b: Byte)
    | Export(p: Pid, x: Wrapper)
    | Import(p: Pid, token: Token, addr: Addr, granted: bool)
    | DuplicateAlias(p: Pid, x: Wrapper, addr: Addr, granted: bool)
    | Finalize(p: Pid, x: Wrapper)
    | Exit(p: Pid)

  // ---------- reading through a wrapper ----------

  /** The wrapper's address is, in its process, the start of a live mapping of the segment that
      was created under its id. */
  ghost predicate Points(w: World, p: Pid, x: Wrapper) {
    && p in w.procs && x.id in w.born
    && w.procs[p].reg.HasRegion(Data(x.id))
    && w.procs[p].reg.list[Data(x.id)].region.value == Region(x.addr, w.born[x.id].seg)
    && w.born[x.id].seg in w.os.segments
    && w.born[x.id].n <= |w.os.segments[w.born[x.id].seg]|
  }

  /** The bytes at the wrapper's address; nothing if the address is not mapped. */
  ghost function View(w: World, p: Pid, x: Wrapper): seq<Byte> {
    if Points(w, p, x) then w.os.segments[w.born[x.id].seg][..w.born[x.id].n] else []
  }

  ghost function SourceSize(w: World, src: Source): nat {
    match src
    case Bytes(bytes) => |bytes|
    case CopyOf(x) => if x.id in w.born then w.born[x.id].n else 0
  }

  ghost function SourceBytes(w: World, p: Pid, src: Source): seq<Byte> {
    match src
    case Bytes(bytes) => bytes
    case CopyOf(x) => View(w, p, x)
  }

  // ---------- the steps ----------

  ghost predicate Runs(w: World, p: Pid, x: Wrapper) {
    p in w.procs && w.procs[p].pc.Idle? && x in w.procs[p].wrappers
  }

  /** Finalizers may run while their process creates or sends another vector, but not on a new
      vector or on the source of a copy. */
  ghost predicate MayFinalize(w: World, p: Pid, x: Wrapper) {
    && p in w.procs
    && var pc := w.procs[p].pc;
       && w.procs[p].wrappers[x] >= (if !pc.Idle? && pc.src == CopyOf(x) then 2 else 1)
       && (pc.Filling? ==> pc.x != x)
  }

  ghost predicate Copies(pc: Pc) {
    pc.Filling? || pc.Exporting?
  }

  /** How many bytes are copied. */
  ghost function Done(pc: Pc): nat
    requires Copies(pc)
  {
    if pc.Filling? then pc.done else |pc.bytes|
  }

  /** How many bytes there are to copy. */
  ghost function Goal(w: World, p: Pid): nat
    requires p in w.procs && Copies(w.procs[p].pc)
  {
    var pc := w.procs[p].pc;
    if pc.Filling? then |View(w, p, pc.x)| else |SourceBytes(w, p, pc.src)|
  }

  ghost predicate Enabled(w: World, s: Step) {
    match s
    case Spawn(p) => p == w.spawned
    case Request(p, src) =>
      p in w.procs && w.procs[p].pc.Idle? && (src.CopyOf? ==> src.x in w.procs[p].wrappers)
    case Increment(p) => p in w.procs && w.procs[p].pc.Searching? && w.lastId + 1 < IDS
    case Check(p) => p in w.procs && w.procs[p].pc.Checking?
    case Create(p, fate) => p in w.procs && w.procs[p].pc.Chosen?
    case MapNew(p, addr, granted) => p in w.procs && w.procs[p].pc.Created?
    case Fill(p) =>
      p in w.procs && Copies(w.procs[p].pc) && Done(w.procs[p].pc) < Goal(w, p)
      && Done(w.procs[p].pc) < |SourceBytes(w, p, w.procs[p].pc.src)|
    case Finish(p) => p in w.procs && Copies(w.procs[p].pc) && Done(w.procs[p].pc) >= Goal(w, p)
    case Write(p, x, at, b) => Runs(w, p, x) && at < |View(w, p, x)|
    case Export(p, x) => Runs(w, p, x)
    case Import(p, token, addr, granted) => p in w.procs && w.procs[p].pc.Idle? && token in w.tokens
    case DuplicateAlias(p, x, addr, granted) => Runs(w, p, x)
    case Finalize(p, x) => MayFinalize(w, p, x)
    case Exit(p) => p in w.procs && w.procs[p].pc.Idle?
  }

  ghost function Put(w: World, p: Pid, proc: Proc): World {
    w.(procs := w.procs[p := proc])
  }

  /** readSharedObject: map the id into this process and wrap the pointer. */
  ghost function Attach(w: World, p: Pid, id: nat, addr: Addr, granted: bool): World
    requires p in w.procs
  {
    var proc := w.procs[p];
    var s := Map(w.os, proc.reg, Data(id), addr, granted);
    if s.r.Ok? then
      Put(w, p, proc.(reg := s.reg, wrappers := proc.wrappers + multiset{Wrapper(id, s.r.value)}))
        .(os := s.os, refused := w.refused - {(p, id)})
    else
      Put(w, p, proc.(reg := s.reg)).(os := s.os, refused := w.refused + if Opens(w, p, id) then {(p, id)} else {})
  }

  /** The process holds the segment of the id, or can open it by name. */
  ghost predicate Opens(w: World, p: Pid, id: nat)
    requires p in w.procs
  {
    Data(id) in w.os.names
    || (Data(id) in w.procs[p].reg.list && w.procs[p].reg.list[Data(id)].handle.Some?)
  }

  ghost function AfterCreate(w: World, p: Pid, fate: Fate): World
    requires p in w.procs && w.procs[p].pc.Chosen?
  {
    var proc := w.procs[p];
    var id := proc.pc.id;
    var n := SourceSize(w, proc.pc.src);
    var s := Allocate(w.os, proc.reg, Data(id), n, fate);
    if s.r.Ok? && s.reg.list[Data(id)].handle.Some? then
      Put(w, p, proc.(reg := s.reg, pc := Created(proc.pc.src, id)))
        .(os := s.os, born := w.born[id := Birth(p, s.reg.list[Data(id)].handle.value, n)])
    else
      Put(w, p, proc.(reg := s.reg, pc := Idle)).(os := s.os)
  }

  /** Maps the new segment, makes this process its owner and wraps it. */
  ghost function AfterMapNew(w: World, p: Pid, addr: Addr, granted: bool): World
    requires p in w.procs && w.procs[p].pc.Created?
  {
    var proc := w.procs[p];
    var id := proc.pc.id;
    var s := Map(w.os, proc.reg, Data(id), addr, granted);
    if s.r.Ok? then
      var own := AutoRelease(s.os, s.reg, Data(id), true);
      var x := Wrapper(id, s.r.value);
      Put(w, p, Proc(own.reg, proc.wrappers + multiset{x}, Filling(proc.pc.src, id, x, 0))).(os := own.os)
    else
      Put(w, p, proc.(reg := s.reg, pc := Idle)).(os := s.os, orphans := w.orphans + {id})
  }

  /** One byte of memcpy: the source is read now, whoever wrote to it meanwhile. */
  ghost function AfterFill(w: World, p: Pid): World
    requires Enabled(w, Fill(p))
  {
    var pc := w.procs[p].pc;
    var b := SourceBytes(w, p, pc.src)[Done(pc)];
    if pc.Exporting? then
      Put(w, p, w.procs[p].(pc := pc.(bytes := pc.bytes + [b])))
    else
      Put(w, p, w.procs[p].(pc := pc.(done := pc.done + 1))).(os := w.os.Write(w.born[pc.x.id].seg, pc.done, b))
  }

  /** The new vector is handed out, or the private copy is sent. */
  ghost function AfterFinish(w: World, p: Pid): World
    requires Enabled(w, Finish(p))
  {
    var pc := w.procs[p].pc;
    Put(w, p, w.procs[p].(pc := Idle)).(tokens := w.tokens + if pc.Exporting? then {Plain(pc.bytes)} else {})
  }

  ghost function AfterFinalize(w: World, p: Pid, x: Wrapper): World
    requires p in w.procs
  {
    var proc := w.procs[p];
    var s := Unmap(w.os, proc.reg, Data(x.id));
    Put(w, p, proc.(reg := s.reg, wrappers := proc.wrappers - multiset{x})).(os := s.os)
  }

  /** At exit every entry is destroyed: what this process owns loses its name. */
  ghost function AfterExit(w: World, p: Pid): World
    requires p in w.procs
  {
    var list := w.procs[p].reg.list;
    var owned := set k | k in list && list[k].ownData;
    w.(procs := w.procs - {p}, os := w.os.(names := w.os.names - owned),
       refused := set r | r in w.refused && r.0 != p)
  }

  /** Serializing a wrapper sends its id while the name exists; otherwise a private copy is made. */
  ghost function AfterExport(w: World, p: Pid, x: Wrapper): World
    requires p in w.procs
  {
    if HasName(w, x.id) then w.(tokens := w.tokens + {RefTo(w, x.id)})
    else Put(w, p, w.procs[p].(pc := Exporting(CopyOf(x), [])))
  }

  ghost predicate HasName(w: World, id: nat) {
    Data(id) in w.os.names && id in w.born
  }

  ghost function RefTo(w: World, id: nat): Token
    requires id in w.born
  {
    Ref(id, w.born[id].seg)
  }

  ghost function Apply(w: World, s: Step): World
    requires Enabled(w, s)
  {
    match s
    case Spawn(p) =>
      Put(w, p, Proc(EMPTY_REGISTRY, multiset{}, Idle)).(spawned := w.spawned + 1)
    case Request(p, src) =>
      Put(w, p, w.procs[p].(pc := Searching(src)))
    case Increment(p) =>
      Put(w, p, w.procs[p].(pc := Checking(w.procs[p].pc.src, w.lastId + 1))).(lastId := w.lastId + 1)
    case Check(p) =>
      var pc := w.procs[p].pc;
      Put(w, p, w.procs[p].(pc := if Data(pc.id) in w.os.names then Searching(pc.src) else Chosen(pc.src, pc.id)))
    case Create(p, fate) => AfterCreate(w, p, fate)
    case MapNew(p, addr, granted) => AfterMapNew(w, p, addr, granted)
    case Fill(p) => AfterFill(w, p)
    case Finish(p) => AfterFinish(w, p)
    case Write(p, x, at, b) => w.(os := w.os.Write(w.born[x.id].seg, at, b))
    case Export(p, x) => AfterExport(w, p, x)
    case Import(p, token, addr, granted) =>
      if token.Ref? then Attach(w, p, token.id, addr, granted) else w
    case DuplicateAlias(p, x, addr, granted) => Attach(w, p, x.id, addr, granted)
    case Finalize(p, x) => AfterFinalize(w, p, x)
    case Exit(p) => AfterExit(w, p)
  }

  const START := World(Os(map[], map[], 0), 0, map[], {}, 0, map[], {}, {})

  ghost predicate Run(w: World, steps: seq<Step>, v: World)
    decreases |steps|
  {
    if steps == [] then w == v
    else Enabled(w, steps[0]) && Run(Apply(w, steps[0]), steps[1..], v)
  }

  // ---------- the invariant ----------

  /** The name exists from the segment's creation until its creator drops the last mapping;
      an orphan, whose creator could not map it, keeps its name for good. */
  ghost predicate NameLives(w: World, id: nat) {
    && id in w.born
    && (id in w.orphans ||
        (var p := w.born[id].creator;
         p in w.procs && (w.procs[p].reg.HasRegion(Data(id)) || CreatedBy(w, p, id))))
  }

  ghost predicate CreatedBy(w: World, p: Pid, id: nat) {
    p in w.procs && w.procs[p].pc.Created? && w.procs[p].pc.id == id
  }

  /** The id is past its creation: its creator mapped it. */
  ghost predicate HandedOut(w: World, id: nat) {
    id in w.born && id !in w.orphans && !CreatedBy(w, w.born[id].creator, id)
  }

  ghost predicate FilledBy(w: World, p: Pid, id: nat) {
    p in w.procs && w.procs[p].pc.Filling? && w.procs[p].pc.id == id
  }

  /** The id is past its creation, and its bytes are copied: other processes may have it. */
  ghost predicate Finished(w: World, id: nat) {
    HandedOut(w, id) && !FilledBy(w, w.born[id].creator, id)
  }

  ghost predicate NameOk(w: World, id: nat) {
    && (Data(id) in w.os.names <==> NameLives(w, id))
    && (Data(id) in w.os.names ==> w.os.names[Data(id)] == w.born[id].seg)
  }

  ghost predicate BirthOk(w: World, id: nat) {
    (id in w.born ==>
      var b := w.born[id];
      && 1 <= id <= w.lastId && b.creator < w.spawned
      && b.seg in w.os.segments && |w.os.segments[b.seg]| == (if b.n > 0 then b.n else 1))
    && (id in w.orphans ==> id in w.born)
  }

  ghost predicate SegsDistinct(w: World, i: nat, j: nat) {
    i in w.born && j in w.born && w.born[i].seg == w.born[j].seg ==> i == j
  }

  ghost predicate ProcOk(w: World, p: Pid) {
    p in w.procs ==> p < w.spawned && Healthy(w.os, w.procs[p].reg)
  }

  ghost predicate EntryOk(w: World, p: Pid, id: nat) {
    p in w.procs && Data(id) in w.procs[p].reg.list ==>
      var e := w.procs[p].reg.list[Data(id)];
      && 1 <= id <= w.lastId
      && (e.handle.Some? ==> id in w.born && e.handle.value == w.born[id].seg)
      && (e.region.Some? ==> e.handle == Some(e.region.value.seg))
      && (e.ownData ==> e.region.Some?)
      && (e.region.Some? ==> (e.ownData <==> w.born[id].creator == p))
  }

  /** The entry holds the segment without mapping it. */
  ghost predicate HoldsUnmapped(w: World, p: Pid, id: nat) {
    && p in w.procs && Data(id) in w.procs[p].reg.list
    && w.procs[p].reg.list[Data(id)].handle.Some? && w.procs[p].reg.list[Data(id)].region.None?
  }

  /** Who holds a segment unmapped: its creator before the mapping or after its refusal, and
      others where it was refused to them. */
  ghost predicate HeldOk(w: World, p: Pid, id: nat) {
    && ((p, id) in w.refused <==> HoldsUnmapped(w, p, id) && id in w.born && w.born[id].creator != p)
    && (p in w.procs && id in w.born && w.born[id].creator == p ==>
          (HoldsUnmapped(w, p, id) <==> CreatedBy(w, p, id) || id in w.orphans))
  }

  /** The counter of an id is the number of wrappers that hold it. */
  ghost predicate CountOk(w: World, p: Pid, id: nat) {
    p in w.procs ==>
      var proc := w.procs[p];
      var k := Data(id);
      if proc.reg.HasRegion(k) then
        proc.reg.Count(k) == proc.wrappers[Wrapper(id, proc.reg.list[k].region.value.addr)] && proc.reg.Count(k) >= 1
      else proc.reg.Count(k) == 0
  }

  ghost predicate WrapperOk(w: World, p: Pid, x: Wrapper) {
    p in w.procs && x in w.procs[p].wrappers ==>
      Points(w, p, x) && HandedOut(w, x.id) && (Finished(w, x.id) || w.born[x.id].creator == p)
  }

  ghost predicate Picked(pc: Pc, id: nat) {
    (pc.Checking? || pc.Chosen?) && pc.id == id
  }

  /** An id that was picked but not yet used is listed nowhere, and picked by nobody else. */
  ghost predicate PickedOk(w: World, p: Pid, q: Pid, id: nat) {
    p in w.procs && Picked(w.procs[p].pc, id) ==>
      && 1 <= id <= w.lastId && id !in w.born
      && (q in w.procs ==> Data(id) !in w.procs[q].reg.list && (Picked(w.procs[q].pc, id) ==> q == p))
  }

  /** The source of a shared copy stays wrapped, and its bytes are there. */
  ghost predicate SourceOk(w: World, p: Pid) {
    p in w.procs && !w.procs[p].pc.Idle? && w.procs[p].pc.src.CopyOf? ==>
      w.procs[p].pc.src.x in w.procs[p].wrappers && Finished(w, w.procs[p].pc.src.x.id)
  }

  /** The new segment is this process's, and as long as its source. */
  ghost predicate MakingOk(w: World, p: Pid) {
    p in w.procs && (w.procs[p].pc.Created? || w.procs[p].pc.Filling?) ==>
      var pc := w.procs[p].pc;
      && pc.id in w.born && w.born[pc.id].creator == p && pc.id !in w.orphans
      && w.born[pc.id].n == SourceSize(w, pc.src)
      && (pc.Created? ==> HoldsUnmapped(w, p, pc.id))
      && (pc.Filling? ==> pc.x.id == pc.id && pc.x in w.procs[p].wrappers && pc.done <= w.born[pc.id].n)
  }

  ghost predicate PcOk(w: World, p: Pid) {
    SourceOk(w, p) && MakingOk(w, p)
  }

  ghost predicate TokenOk(w: World, t: Token) {
    t in w.tokens && t.Ref? ==> Finished(w, t.id) && t.seg == w.born[t.id].seg
  }

  /** Names, segments and serialized ids. */
  ghost predicate IdsInv(w: World) {
    && w.os.Valid()
    && (forall id :: NameOk(w, id))
    && (forall id :: BirthOk(w, id))
    && (forall i, j :: SegsDistinct(w, i, j))
    && (forall t :: TokenOk(w, t))
  }

  /** What the registries list and count. */
  ghost predicate EntriesInv(w: World) {
    && (forall p :: ProcOk(w, p))
    && (forall p, id :: EntryOk(w, p, id))
    && (forall p, id :: HeldOk(w, p, id))
    && (forall p, id :: CountOk(w, p, id))
    && (forall p, x :: WrapperOk(w, p, x))
  }

  /** Where the processes stand. */
  ghost predicate PcsInv(w: World) {
    && (forall p, q, id :: PickedOk(w, p, q, id))
    && (forall p :: PcOk(w, p))
  }

  ghost predicate Inv(w: World) {
    IdsInv(w) && EntriesInv(w) && PcsInv(w)
  }
}
