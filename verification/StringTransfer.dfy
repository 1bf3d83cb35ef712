/**
  Shared character vectors between processes: the index of codes is a shared vector of the
  machine, the character set and the sizes travel with the string.
 */
module StringTransfer {
  import opened OperatingSystem
  import opened CodeWidth
  import opened StringCodec
  import opened Lifecycle
  import opened LifecycleInvariant
  import opened LifecycleTheorems
  import opened LifecycleCopies
  import opened LifecycleSharing

  /** The bytes of an index decode to `x`. */
  ghost predicate Reads<T>(bytes: seq<Byte>, charSet: seq<T>, unit: nat, x: seq<T>) {
    Decodable(bytes, charSet, unit, |x|) && Decode(bytes, charSet, unit, |x|) == x
  }

  // ---------- from one process to another ----------

  /** What a process has after receiving an index: nothing new (NULL), or one alias of it, which
      decodes to `x`. */
  ghost predicate ReceivesAlias<T>(v: World, u: World, q: Pid, id: nat, charSet: seq<T>, unit: nat, x: seq<T>) {
    && q in v.procs && q in u.procs
    && (u.procs[q].wrappers == v.procs[q].wrappers ||
        exists z: Wrapper ::
          && u.procs[q].wrappers == v.procs[q].wrappers + multiset{z}
          && z.id == id && Points(u, q, z) && Reads(View(u, q, z), charSet, unit, x))
  }

  /** A string whose index has its name is exported, and received in any process after any run that
      does not write to the index: it is an alias that decodes to the same vector, or nothing. It
      is an alias when the name is still there and the mapping is granted. */
  lemma ReceivedStringReads<T>(
      w: World, p: Pid, y: Wrapper, steps: seq<Step>, v: World, q: Pid, addr: Addr, granted: bool,
      charSet: seq<T>, unit: nat, x: seq<T>)
    requires Inv(w) && Enabled(w, Export(p, y)) && HasName(w, y.id) && Reads(View(w, p, y), charSet, unit, x)
    requires Run(Apply(w, Export(p, y)), steps, v) && NeverWrites(steps, y.id)
    requires Enabled(v, Import(q, RefTo(w, y.id), addr, granted))
    ensures var u := Apply(v, Import(q, RefTo(w, y.id), addr, granted));
            && ReceivesAlias(v, u, q, y.id, charSet, unit, x)
            && (granted && Data(y.id) in v.os.names ==> u.procs[q].wrappers != v.procs[q].wrappers)
  {
    var u := Apply(v, Import(q, RefTo(w, y.id), addr, granted));
    SerializedNeverResolvesElsewhere(w, p, y, steps, v, q, addr, granted);
    if u.procs[q].wrappers != v.procs[q].wrappers {
      var z: Wrapper :| z.id == y.id && Points(u, q, z) && u.procs[q].wrappers == v.procs[q].wrappers + multiset{z};
      ReceivedAliasView(w, p, y, steps, v, q, addr, granted, z);
    }
  }

  /** What is read through a received alias is what was read when it was exported. */
  lemma ReceivedAliasView(
      w: World, p: Pid, y: Wrapper, steps: seq<Step>, v: World, q: Pid, addr: Addr, granted: bool, z: Wrapper)
    requires Inv(w) && Enabled(w, Export(p, y)) && HasName(w, y.id)
    requires Run(Apply(w, Export(p, y)), steps, v) && NeverWrites(steps, y.id)
    requires Enabled(v, Import(q, RefTo(w, y.id), addr, granted))
    requires z.id == y.id && Points(Apply(v, Import(q, RefTo(w, y.id), addr, granted)), q, z)
    ensures View(Apply(v, Import(q, RefTo(w, y.id), addr, granted)), q, z) == View(w, p, y)
  {
    var w' := Apply(w, Export(p, y));
    assert WrapperOk(w, p, y);
    ExportKeepsInv(w, p, y);
    QuietRunKeepsBytes(w', steps, v, y.id);
    AttachKeepsSystem(v, q, y.id, addr, granted);
  }

  /** A string whose index has lost its name is exported with a private copy of the index, which is
      what anybody receives. It decodes to the same vector unless somebody wrote to the index while
      it was copied. */
  lemma ExportedStringReads<T>(
      w: World, p: Pid, y: Wrapper, steps: seq<Step>, v: World, charSet: seq<T>, unit: nat, x: seq<T>)
    requires Inv(w) && Enabled(w, Export(p, y)) && !HasName(w, y.id) && Reads(View(w, p, y), charSet, unit, x)
    requires Run(Apply(w, Export(p, y)), steps, v) && NeverWrites(steps, y.id)
    requires NoFinish(steps, p) && Enabled(v, Finish(p))
    ensures exists bytes :: Plain(bytes) in Apply(v, Finish(p)).tokens && Reads(bytes, charSet, unit, x)
  {
    ExportedCopyHoldsItsSource(w, p, y, steps, v);
  }

  // ---------- from the sharing to the receipt ----------

  /** A process asks for the index of a vector of strings to be shared, and is about to finish it. */
  ghost predicate SharesString<T>(x: seq<T>, w: World, p: Pid, making: seq<Step>, v: World) {
    && |Distinct(x)| <= 0x1_0000_0000_0000_0000
    && Shares(w, p, Bytes(Encoded(x, Distinct(x), UnitSize(|Distinct(x)|))), making, v)
  }

  /** Whoever holds the index at any later time reads the vector, unless somebody wrote to it. */
  lemma SharedIndexReads<T>(
      x: seq<T>, w: World, p: Pid, making: seq<Step>, v: World, steps: seq<Step>, u: World, q: Pid, y: Wrapper)
    requires SharesString(x, w, p, making, v) && y.id == NewVector(v, p).id
    requires Run(Apply(v, Finish(p)), steps, u) && NeverWrites(steps, y.id) && Holds(u, q, y)
    ensures Inv(u) && Reads(View(u, q, y), Distinct(x), UnitSize(|Distinct(x)|), x)
  {
    SharedBytesAreRead(w, p, Encoded(x, Distinct(x), UnitSize(|Distinct(x)|)), making, v, steps, u, q, y);
    DecodeUndoesEncode(x);
  }

  /** From end to end: a vector of strings is shared by one process, its index handed on to any
      process by any run, exported there and received anywhere at any later time. Unless somebody
      writes to the index, what is received decodes to the vector. */
  lemma SharedStringArrives<T>(
      x: seq<T>, w0: World, owner: Pid, making: seq<Step>, w1: World,
      before: seq<Step>, w: World, p: Pid, y: Wrapper, after: seq<Step>, v: World, q: Pid, addr: Addr, granted: bool)
    requires SharesString(x, w0, owner, making, w1) && y.id == NewVector(w1, owner).id
    requires Run(Apply(w1, Finish(owner)), before, w) && NeverWrites(before, y.id)
    requires Enabled(w, Export(p, y)) && HasName(w, y.id)
    requires Run(Apply(w, Export(p, y)), after, v) && NeverWrites(after, y.id)
    requires Enabled(v, Import(q, RefTo(w, y.id), addr, granted))
    ensures var u := Apply(v, Import(q, RefTo(w, y.id), addr, granted));
            ReceivesAlias(v, u, q, y.id, Distinct(x), UnitSize(|Distinct(x)|), x)
  {
    SharedIndexReads(x, w0, owner, making, w1, before, w, p, y);
    ReceivedStringReads(w, p, y, after, v, q, addr, granted, Distinct(x), UnitSize(|Distinct(x)|), x);
  }

  /** The same when the name is gone by then: the private copy that is sent decodes to the vector. */
  lemma SharedStringArrivesAsCopy<T>(
      x: seq<T>, w0: World, owner: Pid, making: seq<Step>, w1: World,
      before: seq<Step>, w: World, p: Pid, y: Wrapper, after: seq<Step>, v: World)
    requires SharesString(x, w0, owner, making, w1) && y.id == NewVector(w1, owner).id
    requires Run(Apply(w1, Finish(owner)), before, w) && NeverWrites(before, y.id)
    requires Enabled(w, Export(p, y)) && !HasName(w, y.id)
    requires Run(Apply(w, Export(p, y)), after, v) && NeverWrites(after, y.id)
    requires NoFinish(after, p) && Enabled(v, Finish(p))
    ensures exists bytes :: Plain(bytes) in Apply(v, Finish(p)).tokens
                            && Reads(bytes, Distinct(x), UnitSize(|Distinct(x)|), x)
  {
    SharedIndexReads(x, w0, owner, making, w1, before, w, p, y);
    ExportedStringReads(w, p, y, after, v, Distinct(x), UnitSize(|Distinct(x)|), x);
  }

  // ---------- a decoded copy, and writes by others ----------

  /** A holder has a decoded copy `x` of the string. After any run, with any writes by anybody, the
      index still says the same if and only if its bytes are the same. */
  lemma DecodedCopyAgreesIff<T>(
      w: World, steps: seq<Step>, v: World, q: Pid, z: Wrapper, charSet: seq<T>, unit: nat, x: seq<T>)
    requires Inv(w) && Run(w, steps, v) && Holds(w, q, z) && Holds(v, q, z)
    requires NoDup(charSet) && Reads(View(w, q, z), charSet, unit, x)
    ensures Reads(View(v, q, z), charSet, unit, x) <==> View(v, q, z) == View(w, q, z)
  {
    assert WrapperOk(w, q, z);
    RunKeepsBirth(w, steps, v, z.id);
    assert WrapperOk(v, q, z);
    DecodesTheSameIff(View(w, q, z), View(v, q, z), charSet, unit, |x|);
  }

  /** One write to the index, through any wrapper in any process, leaves the decoded copy of every
      holder in agreement if and only if it writes the byte that was there. */
  lemma WriteKeepsDecodedCopyIff<T>(
      w: World, p: Pid, y: Wrapper, at: nat, b: Byte, q: Pid, z: Wrapper, charSet: seq<T>, unit: nat, x: seq<T>)
    requires Inv(w) && Enabled(w, Write(p, y, at, b)) && Holds(w, q, z) && z.id == y.id
    requires NoDup(charSet) && Reads(View(w, q, z), charSet, unit, x)
    ensures at < |View(w, q, z)|
    ensures Reads(View(Apply(w, Write(p, y, at, b)), q, z), charSet, unit, x) <==> b == View(w, q, z)[at]
  {
    var v := Apply(w, Write(p, y, at, b));
    WriteIsSeenByAliasesOnly(w, p, y, at, b, q, z);
    assert View(v, q, z) == View(w, q, z) <==> b == View(w, q, z)[at];
    DecodesTheSameIff(View(w, q, z), View(v, q, z), charSet, unit, |x|);
  }
}
