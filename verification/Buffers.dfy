/**
  Bulk reads of vectors as bytes: the gather loop of sharedVector_subset
  (src/numericAltrepOperations.cpp) and the batched copy of copyData (src/utils.cpp).
 */
module Buffers {
  import opened Wrappers
  import opened OperatingSystem
  import opened Layout

  datatype Kind = Raw | Logical | Integer | Real | Complex

  function TypeSize(kind: Kind): (size: nat)
    ensures size >= 1
  {
    match kind
    case Raw => 1
    case Logical => 4
    case Integer => 4
    case Real => 8
    case Complex => 16
  }

  // ---------- vectors as bytes ----------

  // ---------- subset ----------

  type Int32 = i: int | -0x8000_0000 <= i < 0x8000_0000

  /** What a 32-bit signed number holds after a computation that gave `x`. */
  function Wrap32(x: int): (r: Int32) {
    (x + 0x8000_0000) % 0x1_0000_0000 - 0x8000_0000
  }

  /** Subscripts are one-based, integer or real; a real one is truncated. */
  datatype Index = Ints(ints: seq<Int32>) | Reals(reals: seq<real>)

  function Count(ix: Index): nat {
    if ix.Ints? then |ix.ints| else |ix.reals|
  }

  function Position(ix: Index, i: nat): int
    requires i < Count(ix)
  {
    if ix.Ints? then ix.ints[i] else ix.reals[i].Floor
  }

  ghost predicate InRange(ix: Index, n: nat) {
    forall i: nat :: i < Count(ix) ==> 1 <= Position(ix, i) <= n
  }

  /** The elements at the given positions, in that order. */
  ghost function Gather(v: seq<seq<Byte>>, ix: Index): (g: seq<seq<Byte>>)
    requires InRange(ix, |v|)
    ensures |g| == Count(ix) && forall i: nat :: i < |g| ==> g[i] == v[Position(ix, i) - 1]
  {
    seq(Count(ix), i requires 0 <= i < Count(ix) => v[Position(ix, i) - 1])
  }

  /** Where iteration `i` reads. The base pointer is one element before the vector. An integer
      subscript is multiplied by the element size as a 32-bit number, a real one as a 64-bit
      size, which no vector exceeds. */
  function ReadAt(ix: Index, i: nat, size: nat): int
    requires i < Count(ix)
  {
    (if ix.Ints? then Wrap32(Times(Position(ix, i), size)) else Times(Position(ix, i), size)) - size
  }

  predicate Inside(at: int, size: nat, bytes: seq<Byte>) {
    0 <= at && at + size <= |bytes|
  }

  /** What the first `k` iterations write; nothing once a read leaves the source. */
  function Gathered(bytes: seq<Byte>, size: nat, ix: Index, k: nat): (g: Option<seq<Byte>>)
    requires k <= Count(ix)
    ensures g.Some? ==> |g.value| == Offset(k, size)
  {
    if k == 0 then Some([])
    else
      var g := Gathered(bytes, size, ix, k - 1);
      var at := ReadAt(ix, k - 1, size);
      if g.None? || !Inside(at, size, bytes) then None else Some(g.value + bytes[at..at + size])
  }

  // ---------- the loop ----------

  /** memcpy(dest + at, src + from, size) */
  method CopyBytes(dest: array<Byte>, at: nat, src: array<Byte>, from: nat, size: nat)
    requires at + size <= dest.Length && from + size <= src.Length && dest != src
    modifies dest
    ensures dest[..] == old(dest[..at]) + src[from..from + size] + old(dest[at + size..])
  {
    var b := 0;
    while b < size
      invariant 0 <= b <= size
      invariant forall k :: 0 <= k < dest.Length ==>
                  dest[k] == if at <= k < at + b then src[from + k - at] else old(dest[k])
    {
      dest[at + b] := src[from + b];
      b := b + 1;
    }
  }

  lemma GatheredNext(bytes: seq<Byte>, size: nat, ix: Index, k: nat, g: seq<Byte>)
    requires k < Count(ix) && Gathered(bytes, size, ix, k) == Some(g)
    ensures var at := ReadAt(ix, k, size);
            Gathered(bytes, size, ix, k + 1) == if Inside(at, size, bytes) then Some(g + bytes[at..at + size]) else None
  {
  }

  /** The reads are not checked; `ok` says whether all of them stayed inside the source. */
  method SubsetBytes(src: array<Byte>, size: nat, ix: Index, dest: array<Byte>) returns (ok: bool)
    requires dest != src && dest.Length == Offset(Count(ix), size)
    modifies dest
    ensures var g := Gathered(src[..], size, ix, Count(ix)); ok == g.Some? && (ok ==> dest[..] == g.value)
  {
    for i := 0 to Count(ix)
      invariant Offset(i, size) <= dest.Length
      invariant Gathered(src[..], size, ix, i) == Some(dest[..Offset(i, size)])
    {
      OffsetGrows(i + 1, Count(ix), size);
      ok := CopyElement(dest, i, src, ix, size);
      if !ok {
        OutsideForGood(src[..], size, ix, i + 1, Count(ix));
        return;
      }
    }
    assert dest[..] == dest[..Offset(Count(ix), size)];
    ok := true;
  }

  /** One iteration: the bytes it reads go to place `i`. */
  method CopyElement(dest: array<Byte>, i: nat, src: array<Byte>, ix: Index, size: nat) returns (ok: bool)
    requires dest != src && i < Count(ix) && Offset(i + 1, size) <= dest.Length
    requires Offset(i, size) <= dest.Length && Gathered(src[..], size, ix, i) == Some(dest[..Offset(i, size)])
    modifies dest
    ensures Gathered(src[..], size, ix, i + 1) == if ok then Some(dest[..Offset(i + 1, size)]) else None
  {
    ElementsApart(i, i + 1, size);
    GatheredNext(src[..], size, ix, i, dest[..Offset(i, size)]);
    var at := ReadAt(ix, i, size);
    ok := 0 <= at && at + size <= src.Length;
    if ok {
      OffsetIsProduct(i, size);
      CopyBytes(dest, i * size, src, at, size);
    }
  }

  lemma {:induction false} OutsideForGood(bytes: seq<Byte>, size: nat, ix: Index, j: nat, k: nat)
    requires j <= k <= Count(ix) && Gathered(bytes, size, ix, j).None?
    ensures Gathered(bytes, size, ix, k).None?
    decreases k - j
  {
    if j < k { OutsideForGood(bytes, size, ix, j, k - 1); }
  }

  // ---------- when the elements arrive ----------

  /** What a caller can check: as a 32-bit number no product is too large. */
  ghost predicate Fits(ix: Index, size: nat) {
    ix.Reals? || forall i: nat :: i < Count(ix) ==> Times(Position(ix, i), size) < 0x8000_0000
  }

  /** The bytes the loop gathers are, element by element, the elements asked for. */
  ghost predicate Delivers(bytes: seq<Byte>, size: nat, n: nat, ix: Index)
    requires Vector(bytes, size, n) && InRange(ix, n)
  {
    var g := Gathered(bytes, size, ix, Count(ix));
    g.Some? && Elements(g.value, size, Count(ix)) == Gather(Elements(bytes, size, n), ix)
  }

  /** Element `i` of what is gathered are the bytes iteration `i` read. */
  lemma {:induction false} GatheredElement(bytes: seq<Byte>, size: nat, ix: Index, k: nat, i: nat)
    requires i < k <= Count(ix) && Gathered(bytes, size, ix, k).Some?
    ensures Offset(i, size) + size <= Offset(k, size)
    ensures var at := ReadAt(ix, i, size);
            && Inside(at, size, bytes)
            && Element(Gathered(bytes, size, ix, k).value, size, i) == bytes[at..at + size]
  {
    var g, at := Gathered(bytes, size, ix, k - 1).value, ReadAt(ix, k - 1, size);
    ElementsApart(i, k, size);
    ElementOfAppend(g, bytes[at..at + size], size, k - 1, i);
    if i < k - 1 {
      GatheredElement(bytes, size, ix, k - 1, i);
    }
  }

  /** A product that fits is read at the element it means. */
  lemma FitsReadsElement(size: nat, n: nat, ix: Index, i: nat)
    requires InRange(ix, n) && i < Count(ix) && Fits(ix, size)
    ensures ReadAt(ix, i, size) == Offset(Position(ix, i) - 1, size)
    ensures Offset(Position(ix, i) - 1, size) + size <= Offset(n, size)
  {
    ElementsApart(Position(ix, i) - 1, n, size);
  }

  lemma {:induction false} FitsStaysInside(bytes: seq<Byte>, size: nat, n: nat, ix: Index, k: nat)
    requires Vector(bytes, size, n) && InRange(ix, n) && Fits(ix, size) && k <= Count(ix)
    ensures Gathered(bytes, size, ix, k).Some?
  {
    if k > 0 {
      FitsStaysInside(bytes, size, n, ix, k - 1);
      FitsReadsElement(size, n, ix, k - 1);
    }
  }

  lemma FitsDeliversElement(bytes: seq<Byte>, size: nat, n: nat, ix: Index, i: nat)
    requires Vector(bytes, size, n) && InRange(ix, n) && Fits(ix, size) && i < Count(ix)
    requires Gathered(bytes, size, ix, Count(ix)).Some?
    ensures Elements(Gathered(bytes, size, ix, Count(ix)).value, size, Count(ix))[i]
            == Elements(bytes, size, n)[Position(ix, i) - 1]
  {
    var g := Gathered(bytes, size, ix, Count(ix)).value;
    GatheredElement(bytes, size, ix, Count(ix), i);
    FitsReadsElement(size, n, ix, i);
    assert Element(g, size, i) == Element(bytes, size, Position(ix, i) - 1);
  }

  lemma FitsDelivers(bytes: seq<Byte>, size: nat, n: nat, ix: Index)
    requires Vector(bytes, size, n) && InRange(ix, n) && Fits(ix, size)
    ensures Delivers(bytes, size, n, ix)
  {
    FitsStaysInside(bytes, size, n, ix, Count(ix));
    var g := Elements(Gathered(bytes, size, ix, Count(ix)).value, size, Count(ix));
    var gathered := Gather(Elements(bytes, size, n), ix);
    forall i: nat | i < Count(ix) ensures g[i] == gathered[i] {
      FitsDeliversElement(bytes, size, n, ix, i);
    }
    assert g == gathered;
  }

  /** A product that does not fit is read somewhere else: a whole number of elements away. */
  lemma TooLargeReadsElsewhere(kind: Kind, ix: Index, i: nat) returns (q: int)
    requires ix.Ints? && i < Count(ix) && Times(Position(ix, i), TypeSize(kind)) >= 0x8000_0000
    ensures ReadAt(ix, i, TypeSize(kind)) == Times(q, TypeSize(kind)) && q != Position(ix, i) - 1
  {
    var p := Position(ix, i);
    TimesIsProduct(p, TypeSize(kind));
    match kind
    case Raw => q := p;
    case Logical => q := WrapsBy(p, 4, 0x4000_0000);
    case Integer => q := WrapsBy(p, 4, 0x4000_0000);
    case Real => q := WrapsBy(p, 8, 0x2000_0000);
    case Complex => q := WrapsBy(p, 16, 0x1000_0000);
  }

  lemma WrapsBy(p: int, size: nat, turn: nat) returns (q: int)
    requires size * turn == 0x1_0000_0000 && (size == 4 || size == 8 || size == 16) && p * size >= 0x8000_0000
    ensures Wrap32(p * size) - size == Times(q, size) && q != p - 1
  {
    var k := (p * size + 0x8000_0000) / 0x1_0000_0000;
    q := p - k * turn - 1;
    TimesIsProduct(q, size);
  }

  /** `bytes` is a one at the start of element `e` and zero elsewhere. */
  ghost predicate MarksElement(bytes: seq<Byte>, size: nat, e: nat) {
    forall j :: 0 <= j < |bytes| ==> bytes[j] == if j == Offset(e, size) then 1 else 0
  }

  /** What iteration `i` reads are the bytes of the element asked for. */
  ghost predicate ReadsElement(bytes: seq<Byte>, size: nat, ix: Index, i: nat)
    requires i < Count(ix) && Position(ix, i) >= 1
  {
    var e, at := Position(ix, i) - 1, ReadAt(ix, i, size);
    Inside(at, size, bytes) && Offset(e, size) + size <= |bytes| && Element(bytes, size, e) == bytes[at..at + size]
  }

  lemma DeliversElement(bytes: seq<Byte>, size: nat, n: nat, ix: Index, i: nat)
    requires Vector(bytes, size, n) && InRange(ix, n) && i < Count(ix) && Delivers(bytes, size, n, ix)
    ensures ReadsElement(bytes, size, ix, i)
  {
    var g := Gathered(bytes, size, ix, Count(ix)).value;
    assert Elements(g, size, Count(ix))[i] == Gather(Elements(bytes, size, n), ix)[i];
    GatheredElement(bytes, size, ix, Count(ix), i);
  }

  /** The marked element differs from every other. */
  lemma MarkTellsApart(bytes: seq<Byte>, size: nat, ix: Index, i: nat, q: int)
    requires i < Count(ix) && Position(ix, i) >= 1 && size >= 1
    requires MarksElement(bytes, size, Position(ix, i) - 1)
    requires ReadAt(ix, i, size) == Times(q, size) && q != Position(ix, i) - 1
    ensures !ReadsElement(bytes, size, ix, i)
  {
    var e, at := Position(ix, i) - 1, ReadAt(ix, i, size);
    if 0 <= q < e { ElementsApart(q, e, size); }
    if e < q { ElementsApart(e, q, size); }
    if Inside(at, size, bytes) && Offset(e, size) + size <= |bytes| {
      assert Element(bytes, size, e)[0] != bytes[at..at + size][0];
    }
  }

  /** Some vector tells the element asked for from the one that is read instead. */
  lemma TooLargeFails(kind: Kind, n: nat, ix: Index, i: nat) returns (bytes: seq<Byte>)
    requires ix.Ints? && InRange(ix, n) && i < Count(ix) && Times(Position(ix, i), TypeSize(kind)) >= 0x8000_0000
    ensures Vector(bytes, TypeSize(kind), n) && !Delivers(bytes, TypeSize(kind), n, ix)
  {
    var size, e := TypeSize(kind), Position(ix, i) - 1;
    var q := TooLargeReadsElsewhere(kind, ix, i);
    bytes := seq(Offset(n, size), j => if j == Offset(e, size) then 1 else 0);
    MarkTellsApart(bytes, size, ix, i, q);
    if Delivers(bytes, size, n, ix) { DeliversElement(bytes, size, n, ix, i); }
  }

  /** Every element of every vector arrives if and only if the subscripts are real or none of them
      times the element size reaches 2^31. */
  lemma SubsetIsGatherIff(kind: Kind, n: nat, ix: Index)
    requires InRange(ix, n)
    ensures Fits(ix, TypeSize(kind)) <==>
            forall bytes :: Vector(bytes, TypeSize(kind), n) ==> Delivers(bytes, TypeSize(kind), n, ix)
  {
    if Fits(ix, TypeSize(kind)) {
      forall bytes | Vector(bytes, TypeSize(kind), n) ensures Delivers(bytes, TypeSize(kind), n, ix) {
        FitsDelivers(bytes, TypeSize(kind), n, ix);
      }
    } else {
      var i: nat :| i < Count(ix) && Times(Position(ix, i), TypeSize(kind)) >= 0x8000_0000;
      var bytes := TooLargeFails(kind, n, ix, i);
    }
  }

  /** What was gathered are the elements of the source at the given one-based positions. */
  ghost predicate ElementsAt(g: Option<seq<Byte>>, bytes: seq<Byte>, size: nat, n: nat, positions: seq<int>)
    requires Vector(bytes, size, n) && forall i :: 0 <= i < |positions| ==> 1 <= positions[i] <= n
  {
    && g.Some? && Vector(g.value, size, |positions|)
    && Elements(g.value, size, |positions|) == Picked(Elements(bytes, size, n), positions)
  }

  ghost function Picked(v: seq<seq<Byte>>, positions: seq<int>): (r: seq<seq<Byte>>)
    requires forall i :: 0 <= i < |positions| ==> 1 <= positions[i] <= |v|
    ensures |r| == |positions| && forall i :: 0 <= i < |r| ==> r[i] == v[positions[i] - 1]
  {
    seq(|positions|, i requires 0 <= i < |positions| => v[positions[i] - 1])
  }

  lemma GatherIsPicked(v: seq<seq<Byte>>, ix: Index, positions: seq<int>)
    requires InRange(ix, |v|) && |positions| == Count(ix)
    requires forall i: nat :: i < Count(ix) ==> positions[i] == Position(ix, i)
    ensures forall i :: 0 <= i < |positions| ==> 1 <= positions[i] <= |v|
    ensures Gather(v, ix) == Picked(v, positions)
  {
    forall i: nat | i < Count(ix) ensures 1 <= positions[i] <= |v| && Gather(v, ix)[i] == v[positions[i] - 1] {
      assert positions[i] == Position(ix, i);
    }
  }

  ghost predicate AllBelow(ints: seq<Int32>, bound: nat) {
    forall i :: 0 <= i < |ints| ==> ints[i] < bound
  }

  lemma FitsBelow(kind: Kind, ints: seq<Int32>, size: nat, bound: nat)
    requires TypeSize(kind) == size && size * bound == 0x8000_0000
    requires size == 1 || size == 4 || size == 8 || size == 16
    ensures Fits(Ints(ints), size) <==> AllBelow(ints, bound)
  {
    forall i: nat | i < |ints|
      ensures Times(Position(Ints(ints), i), size) < 0x8000_0000 <==> ints[i] < bound
    {
      TimesIsProduct(ints[i], size);
    }
  }

  /** In numbers: with integer subscripts every element of every vector arrives if and only if they
      are below 2^29 for logicals and integers, 2^28 for doubles and 2^27 for complex numbers. */
  lemma SubsetByIntegersIff(kind: Kind, n: nat, ints: seq<Int32>)
    requires forall i :: 0 <= i < |ints| ==> 1 <= ints[i] <= n
    ensures (forall bytes :: Vector(bytes, TypeSize(kind), n) ==>
               ElementsAt(Gathered(bytes, TypeSize(kind), Ints(ints), |ints|), bytes, TypeSize(kind), n, ints))
            <==> match kind
                 case Raw => true
                 case Logical => AllBelow(ints, 0x2000_0000)
                 case Integer => AllBelow(ints, 0x2000_0000)
                 case Real => AllBelow(ints, 0x1000_0000)
                 case Complex => AllBelow(ints, 0x0800_0000)
  {
    SubsetIsGatherIff(kind, n, Ints(ints));
    forall bytes | Vector(bytes, TypeSize(kind), n)
      ensures Delivers(bytes, TypeSize(kind), n, Ints(ints)) <==>
              ElementsAt(Gathered(bytes, TypeSize(kind), Ints(ints), |ints|), bytes, TypeSize(kind), n, ints)
    {
      DeliversAt(bytes, TypeSize(kind), n, Ints(ints), ints);
    }
    match kind
    case Raw => FitsBelow(kind, ints, 1, 0x8000_0000);
    case Logical => FitsBelow(kind, ints, 4, 0x2000_0000);
    case Integer => FitsBelow(kind, ints, 4, 0x2000_0000);
    case Real => FitsBelow(kind, ints, 8, 0x1000_0000);
    case Complex => FitsBelow(kind, ints, 16, 0x0800_0000);
  }

  lemma DeliversAt(bytes: seq<Byte>, size: nat, n: nat, ix: Index, positions: seq<int>)
    requires Vector(bytes, size, n) && InRange(ix, n) && |positions| == Count(ix)
    requires forall i: nat :: i < Count(ix) ==> positions[i] == Position(ix, i)
    ensures Delivers(bytes, size, n, ix) <==>
            ElementsAt(Gathered(bytes, size, ix, Count(ix)), bytes, size, n, positions)
  {
    GatherIsPicked(Elements(bytes, size, n), ix, positions);
  }

  /** With real subscripts, truncated, every element of every vector arrives. */
  lemma SubsetByReals(kind: Kind, n: nat, reals: seq<real>, positions: seq<int>, bytes: seq<Byte>)
    requires |positions| == |reals| && forall i :: 0 <= i < |reals| ==>
               positions[i] as real <= reals[i] < positions[i] as real + 1.0 && 1 <= positions[i] <= n
    requires Vector(bytes, TypeSize(kind), n)
    ensures ElementsAt(Gathered(bytes, TypeSize(kind), Reals(reals), |reals|), bytes, TypeSize(kind), n, positions)
  {
    FitsDelivers(bytes, TypeSize(kind), n, Reals(reals));
    DeliversAt(bytes, TypeSize(kind), n, Reals(reals), positions);
  }

  /** In a double vector of 2^28 elements the last one is read before the vector begins. */
  lemma LastDoubleIsReadOutside(bytes: seq<Byte>)
    requires Vector(bytes, TypeSize(Real), 0x1000_0000)
    ensures InRange(Ints([0x1000_0000]), 0x1000_0000)
    ensures ReadAt(Ints([0x1000_0000]), 0, TypeSize(Real)) == -0x8000_0000 - 8
    ensures Gathered(bytes, TypeSize(Real), Ints([0x1000_0000]), 1).None?
  {
    TimesIsProduct(0x1000_0000, 8);
  }

  /** In a complex vector of more than 2^28 elements, asking for element 2^28 + 1 gives the first. */
  lemma LaterComplexIsTheFirst(bytes: seq<Byte>, n: nat)
    requires n > 0x1000_0000 && Vector(bytes, TypeSize(Complex), n)
    ensures InRange(Ints([0x1000_0001]), n) && |bytes| >= 16
    ensures Gathered(bytes, TypeSize(Complex), Ints([0x1000_0001]), 1) == Some(bytes[..16])
  {
    var ix := Ints([0x1000_0001]);
    ElementsApart(0, n, 16);
    TimesIsProduct(0x1000_0001, 16);
    assert Offset(0, 16) == 0 && ReadAt(ix, 0, 16) == 0;
    assert Gathered(bytes, 16, ix, 0) == Some([]);
    assert [] + bytes[0..16] == bytes[..16];
  }

  method Subset(src: array<Byte>, kind: Kind, ghost n: nat, ix: Index) returns (ok: bool, dest: array<Byte>)
    requires Vector(src[..], TypeSize(kind), n) && InRange(ix, n)
    ensures fresh(dest) && Vector(dest[..], TypeSize(kind), Count(ix))
    ensures var g := Gathered(src[..], TypeSize(kind), ix, Count(ix)); ok == g.Some? && (ok ==> dest[..] == g.value)
    ensures Fits(ix, TypeSize(kind)) ==>
              ok && Elements(dest[..], TypeSize(kind), Count(ix)) == Gather(Elements(src[..], TypeSize(kind), n), ix)
  {
    var size := TypeSize(kind);
    OffsetIsProduct(Count(ix), size);
    dest := new Byte[Count(ix) * size](_ => 0);
    ok := SubsetBytes(src, size, ix, dest);
    if Fits(ix, size) {
      FitsDelivers(src[..], size, n, ix);
    }
  }

  // ---------- a subset of a subset ----------

  ghost predicate Composes(composed: Index, ix: Index, jx: Index)
    requires InRange(jx, Count(ix))
  {
    && Count(composed) == Count(jx)
    && forall i: nat :: i < Count(jx) ==> Position(composed, i) == Position(ix, Position(jx, i) - 1)
  }

  lemma GatherOfGather(v: seq<seq<Byte>>, ix: Index, jx: Index, composed: Index)
    requires InRange(ix, |v|) && InRange(jx, Count(ix)) && Composes(composed, ix, jx)
    ensures InRange(composed, |v|) && Gather(Gather(v, ix), jx) == Gather(v, composed)
  {
  }

  /** The bytes of a subset of a subset are those of the subset by the composed index. */
  lemma SubsetOfSubset(bytes: seq<Byte>, size: nat, n: nat, ix: Index, jx: Index, composed: Index)
    requires Vector(bytes, size, n) && InRange(ix, n) && InRange(jx, Count(ix))
    requires Fits(ix, size) && Fits(jx, size) && Fits(composed, size)
    requires Composes(composed, ix, jx)
    ensures var sub := Gathered(bytes, size, ix, Count(ix));
            && InRange(composed, n) && sub.Some?
            && Gathered(sub.value, size, jx, Count(jx)).Some?
            && Gathered(bytes, size, composed, Count(composed)) == Gathered(sub.value, size, jx, Count(jx))
  {
    var v := Elements(bytes, size, n);
    GatherOfGather(v, ix, jx, composed);
    FitsDelivers(bytes, size, n, ix);
    var sub := Gathered(bytes, size, ix, Count(ix)).value;
    FitsDelivers(sub, size, Count(ix), jx);
    FitsDelivers(bytes, size, n, composed);
    ElementsDetermineBytes(Gathered(sub, size, jx, Count(jx)).value,
                           Gathered(bytes, size, composed, Count(jx)).value, size, Count(jx));
  }

  // ---------- batched copy ----------

  /** Where a batch that starts at element `ind` and has `nbatch` elements is written. Integers
      go to `ind`; the other types go to `ind * nbatch`. */
  function Target(kind: Kind, ind: nat, nbatch: nat): nat {
    if kind.Integer? then ind else ind * nbatch
  }

  /** How many elements the first `k` batches hold: where batch `k` starts. */
  function Before(batches: seq<nat>, k: nat): nat
    requires k <= |batches|
  {
    if k == 0 then 0 else Before(batches, k - 1) + batches[k - 1]
  }

  function Total(batches: seq<nat>): nat {
    Before(batches, |batches|)
  }

  ghost predicate NonEmpty(batches: seq<nat>) {
    forall j :: 0 <= j < |batches| ==> batches[j] > 0
  }

  lemma {:induction false} BeforeGrows(batches: seq<nat>, j: nat, k: nat)
    requires j <= k <= |batches|
    ensures Before(batches, j) <= Before(batches, k)
    ensures j < k && NonEmpty(batches) ==> Before(batches, j) < Before(batches, k)
    decreases k - j
  {
    if j < k { BeforeGrows(batches, j, k - 1); }
  }

  /** The target after the first `k` batches are written; nothing once a write leaves it. */
  function Copied<E>(kind: Kind, batches: seq<nat>, k: nat, src: seq<E>, target: seq<E>): (r: Option<seq<E>>)
    requires k <= |batches| && Before(batches, k) <= |src|
    ensures r.Some? ==> |r.value| == |target|
  {
    if k == 0 then Some(target)
    else
      var ind, nbatch := Before(batches, k - 1), batches[k - 1];
      var at := Target(kind, ind, nbatch);
      var t := Copied(kind, batches, k - 1, src, target);
      if t.None? || at + nbatch > |target| then None
      else Some(t.value[..at] + src[ind..ind + nbatch] + t.value[at + nbatch..])
  }

  lemma CopiedNext<E>(kind: Kind, batches: seq<nat>, j: nat, src: seq<E>, target: seq<E>, t: seq<E>)
    requires j < |batches| && Before(batches, j + 1) <= |src| && |t| == |target|
    requires Copied(kind, batches, j, src, target) == Some(t)
    ensures var ind, nbatch := Before(batches, j), batches[j];
            var at := Target(kind, ind, nbatch);
            Copied(kind, batches, j + 1, src, target) ==
            if at + nbatch > |target| then None
            else Some(t[..at] + src[ind..ind + nbatch] + t[at + nbatch..])
  {
  }

  /** copyData, for a source that is delivered in the given batches. The writes are not checked;
      `ok` says whether all of them stayed inside the target. */
  method CopyData<E>(target: array<E>, source: seq<E>, kind: Kind, batches: seq<nat>) returns (ok: bool)
    requires Total(batches) == |source| == target.Length
    modifies target
    ensures var c := Copied(kind, batches, |batches|, source, old(target[..]));
            ok == c.Some? && (ok ==> target[..] == c.value)
  {
    var ind := 0;
    for j := 0 to |batches|
      invariant ind == Before(batches, j) <= |source|
      invariant Copied(kind, batches, j, source, old(target[..])) == Some(target[..])
    {
      BeforeGrows(batches, j + 1, |batches|);
      ok := CopyBatch(target, source, kind, batches, j, ind, old(target[..]));
      if !ok {
        NeverAgain(kind, batches, j + 1, |batches|, source, old(target[..]));
        return false;
      }
      ind := ind + batches[j];
    }
    ok := true;
  }

  /** One iteration: batch `j`, which starts at element `ind`. */
  method CopyBatch<E>(target: array<E>, source: seq<E>, kind: Kind, batches: seq<nat>, j: nat, ind: nat,
                      ghost initial: seq<E>) returns (ok: bool)
    requires |initial| == target.Length
    requires j < |batches| && ind == Before(batches, j) && Before(batches, j + 1) <= |source|
    requires Copied(kind, batches, j, source, initial) == Some(target[..])
    modifies target
    ensures Copied(kind, batches, j + 1, source, initial) == if ok then Some(target[..]) else None
  {
    CopiedNext(kind, batches, j, source, initial, target[..]);
    var nbatch := batches[j];
    var at := Target(kind, ind, nbatch);
    ok := at + nbatch <= target.Length;
    if ok {
      WriteBatch(target, at, source[ind..ind + nbatch]);
    }
  }

  /** memcpy(target + at, buffer, nbatch) */
  method WriteBatch<E>(target: array<E>, at: nat, buffer: seq<E>)
    requires at + |buffer| <= target.Length
    modifies target
    ensures target[..] == old(target[..at]) + buffer + old(target[at + |buffer|..])
  {
    for b := 0 to |buffer|
      invariant forall k :: 0 <= k < target.Length ==>
                  target[k] == if at <= k < at + b then buffer[k - at] else old(target[k])
    {
      target[at + b] := buffer[b];
    }
  }

  lemma {:induction false} NeverAgain<E>(kind: Kind, batches: seq<nat>, j: nat, k: nat, src: seq<E>, target: seq<E>)
    requires j <= k <= |batches| && Before(batches, k) <= |src| && Before(batches, j) <= |src|
    requires Copied(kind, batches, j, src, target).None?
    ensures Copied(kind, batches, k, src, target).None?
    decreases k - j
  {
    if j < k {
      BeforeGrows(batches, k - 1, k);
      NeverAgain(kind, batches, j, k - 1, src, target);
    }
  }

  /** The batches the copy can handle: any for integers; for the other types a single one,
      followed at most by batches of one element. */
  ghost predicate Handled(kind: Kind, batches: seq<nat>) {
    kind.Integer? || forall j :: 1 <= j < |batches| ==> batches[j] == 1
  }

  lemma PrefixGrows<E>(src: seq<E>, target: seq<E>, ind: nat, nbatch: nat)
    requires ind + nbatch <= |src| == |target|
    ensures var t := src[..ind] + target[ind..];
            t[..ind] + src[ind..ind + nbatch] + t[ind + nbatch..] == src[..ind + nbatch] + target[ind + nbatch..]
  {
  }

  lemma {:induction false} HandledCopyIsRight<E>(kind: Kind, batches: seq<nat>, k: nat, src: seq<E>, target: seq<E>)
    requires Handled(kind, batches) && k <= |batches| && Before(batches, k) <= |src| == |target|
    ensures Copied(kind, batches, k, src, target)
            == Some(src[..Before(batches, k)] + target[Before(batches, k)..])
  {
    if k > 0 {
      var ind, nbatch := Before(batches, k - 1), batches[k - 1];
      var t := src[..ind] + target[ind..];
      HandledCopyIsRight(kind, batches, k - 1, src, target);
      CopiedNext(kind, batches, k - 1, src, target, t);
      assert Target(kind, ind, nbatch) == ind by { StaysPut(ind, nbatch); }
      PrefixGrows(src, target, ind, nbatch);
    } else {
      assert src[..0] + target[0..] == target;
    }
  }

  /** The first element of an offending batch is delivered by that batch alone, and not in place. */
  lemma NeverInPlace(kind: Kind, batches: seq<nat>, bad: nat, k: nat)
    requires !kind.Integer? && NonEmpty(batches) && k < |batches|
    requires 1 <= bad < |batches| && batches[bad] != 1
    ensures var c, ind, nbatch := Before(batches, bad), Before(batches, k), batches[k];
            Target(kind, ind, nbatch) != ind || c < ind || c >= ind + nbatch
  {
    StaysPut(Before(batches, k), batches[k]);
    if k < bad { BeforeGrows(batches, k + 1, bad); }
    if bad < k { BeforeGrows(batches, bad, k); }
    BeforeGrows(batches, 0, bad);
  }

  /** Where a batch goes, right or wrong: integers to their place `ind`, the other types to place
      `ind * nbatch`; nothing else in the target changes; and the copy leaves the target exactly
      when a batch does. */
  lemma BatchGoes<E>(kind: Kind, batches: seq<nat>, j: nat, src: seq<E>, target: seq<E>, t: seq<E>)
    requires j < |batches| && Before(batches, j + 1) <= |src| && |t| == |target|
    requires Copied(kind, batches, j, src, target) == Some(t)
    ensures var ind, nbatch := Before(batches, j), batches[j];
            var at := if kind == Integer then ind else ind * nbatch;
            var r := Copied(kind, batches, j + 1, src, target);
            && (r.None? <==> at + nbatch > |target|)
            && (r.Some? ==>
                  && r.value[at..at + nbatch] == src[ind..ind + nbatch]
                  && r.value[..at] == t[..at] && r.value[at + nbatch..] == t[at + nbatch..])
  {
    CopiedNext(kind, batches, j, src, target, t);
  }

  /** In a copy that is not handled, the first element of the offending batch never arrives. */
  lemma {:induction false} FirstOfBadBatchIsLost(
      kind: Kind, batches: seq<nat>, bad: nat, k: nat, src: seq<nat>, target: seq<nat>)
    requires !kind.Integer? && NonEmpty(batches) && k <= |batches| && Total(batches) == |src| == |target|
    requires 1 <= bad < |batches| && batches[bad] != 1
    requires forall i :: 0 <= i < |src| ==> src[i] == i + 1 && target[i] == 0
    ensures Before(batches, k) <= |src| && Before(batches, bad) < |src|
    ensures var r := Copied(kind, batches, k, src, target);
            r.Some? ==> r.value[Before(batches, bad)] != src[Before(batches, bad)]
  {
    BeforeGrows(batches, k, |batches|);
    BeforeGrows(batches, bad, |batches|);
    if k > 0 {
      FirstOfBadBatchIsLost(kind, batches, bad, k - 1, src, target);
      if Copied(kind, batches, k - 1, src, target).Some? {
        LostStaysLost(kind, batches, bad, k - 1, src, target);
      }
    }
  }

  lemma LostStaysLost(kind: Kind, batches: seq<nat>, bad: nat, k: nat, src: seq<nat>, target: seq<nat>)
    requires !kind.Integer? && NonEmpty(batches) && k < |batches|
    requires 1 <= bad < |batches| && batches[bad] != 1
    requires Before(batches, k) + batches[k] <= |src| == |target| && Before(batches, bad) < |src|
    requires forall i :: 0 <= i < |src| ==> src[i] == i + 1
    requires var t := Copied(kind, batches, k, src, target);
             t.Some? && t.value[Before(batches, bad)] != src[Before(batches, bad)]
    ensures var r := Copied(kind, batches, k + 1, src, target);
            r.Some? ==> r.value[Before(batches, bad)] != src[Before(batches, bad)]
  {
    var ind, nbatch, t := Before(batches, k), batches[k], Copied(kind, batches, k, src, target).value;
    CopiedNext(kind, batches, k, src, target, t);
    NeverInPlace(kind, batches, bad, k);
    BatchMisses(t, Target(kind, ind, nbatch), src, ind, nbatch, Before(batches, bad));
  }

  /** Moving a stretch of an injective source puts none of its elements where it was. */
  lemma BatchMisses(t: seq<nat>, at: nat, src: seq<nat>, ind: nat, nbatch: nat, c: nat)
    requires ind + nbatch <= |src| && c < |t| == |src| && t[c] != src[c]
    requires forall i :: 0 <= i < |src| ==> src[i] == i + 1
    requires at != ind || c < ind || c >= ind + nbatch
    ensures at + nbatch <= |t| ==> (t[..at] + src[ind..ind + nbatch] + t[at + nbatch..])[c] != src[c]
  {
  }

  lemma StaysPut(ind: nat, nbatch: nat)
    ensures ind * nbatch == ind <==> ind == 0 || nbatch == 1
  {
  }

  /** The copy gives the source for every source and target if and only if it is handled. */
  lemma CopyIsRightIff(kind: Kind, batches: seq<nat>)
    requires NonEmpty(batches)
    ensures Handled(kind, batches) <==>
            forall src: seq<nat>, target: seq<nat> :: |src| == |target| == Total(batches) ==>
              Copied(kind, batches, |batches|, src, target) == Some(src)
  {
    var n := Total(batches);
    if Handled(kind, batches) {
      forall src: seq<nat>, target: seq<nat> | |src| == |target| == n
        ensures Copied(kind, batches, |batches|, src, target) == Some(src)
      {
        HandledCopyIsRight(kind, batches, |batches|, src, target);
        assert src[..n] + target[n..] == src;
      }
    } else {
      var bad :| 1 <= bad < |batches| && batches[bad] != 1;
      var src, target := seq(n, i => i + 1), seq(n, _ => 0);
      FirstOfBadBatchIsLost(kind, batches, bad, |batches|, src, target);
    }
  }

  // ---------- the batches R delivers ----------

  /** R delivers `n` elements in batches of `size`, the last one shorter. */
  function Delivered(n: nat, size: nat): (batches: seq<nat>)
    requires size > 0
    ensures NonEmpty(batches)
    decreases n
  {
    if n == 0 then [] else if n <= size then [n] else [size] + Delivered(n - size, size)
  }

  lemma {:induction false} DeliveredTotal(n: nat, size: nat)
    requires size > 0
    ensures Total(Delivered(n, size)) == n
    decreases n
  {
    if n > size {
      var rest := Delivered(n - size, size);
      DeliveredTotal(n - size, size);
      BeforeCons(size, rest, |rest|);
    } else if n > 0 {
      assert Before([n], 1) == Before([n], 0) + n;
    }
  }

  lemma {:induction false} BeforeCons(first: nat, rest: seq<nat>, k: nat)
    requires k <= |rest|
    ensures Before([first] + rest, k + 1) == first + Before(rest, k)
  {
    if k > 0 { BeforeCons(first, rest, k - 1); }
  }

  /** So a vector of another type than integer is copied correctly only if it fits one batch, or
      exceeds it by a single element. */
  lemma DeliveredIsHandledIff(kind: Kind, n: nat, size: nat)
    requires size > 1
    ensures Handled(kind, Delivered(n, size)) <==> kind.Integer? || n <= size + 1
  {
    if n > size {
      var rest := Delivered(n - size, size);
      var d := Delivered(n, size);
      assert d == [size] + rest && d[1] == rest[0];
      if n == size + 1 {
        assert rest == [1] && |d| == 2;
      } else {
        assert rest[0] > 1;
      }
    }
  }
}
