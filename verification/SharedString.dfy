/**
  Shared character vectors (src/altrep.cpp, src/stringAltrepOperations.cpp): a shared byte buffer
  of codes, a character set, and a decoded copy that is filled lazily and then read first.
 */
module SharedString {
  import opened Wrappers
  import opened OperatingSystem
  import opened Layout
  import opened CodeWidth
  import opened StringCodec
  import opened StringWrite

  /** A serialized string. The index is a shared vector of its own and travels as one: it arrives
      as an alias, as an equal private vector, or as nothing. */
  datatype Serialized<T> = Serialized(
    strVec: Option<seq<T>>, index: Option<array<Byte>>, charSet: seq<T>, unitSize: nat, length: nat,
    copyOnWrite: bool)

  /** Whoever receives this gets a shared string that reads `x`. */
  ghost predicate Carries<T>(info: Serialized<T>, x: seq<T>)
    reads if info.index.Some? then {info.index.value} else {}
  {
    && info.index.Some?
    && var s := Str(info.strVec, info.index.value[..], info.charSet, info.unitSize, info.length);
       Well(s) && ContentsOf(s) == x
  }

  /** ((uintN_t *)indexPtr)[i] = code */
  method StoreUnit(a: array<Byte>, unit: nat, i: nat, code: nat)
    requires Offset(i, unit) + unit <= a.Length
    modifies a
    ensures a[..] == Stored(old(a[..]), unit, i, code)
  {
    var b := 0;
    var rest := code;
    var s := i * unit;
    OffsetIsProduct(i, unit);
    ghost var bytes := LeBytes(code, unit);
    while b < unit
      invariant 0 <= b <= unit && LeBytes(rest, unit - b) == bytes[b..]
      invariant forall k :: 0 <= k < a.Length ==> a[k] == if s <= k < s + b then bytes[k - s] else old(a[k])
    {
      a[s + b] := rest % 256;
      assert bytes[b] == LeBytes(rest, unit - b)[0];
      assert bytes[b + 1..] == LeBytes(rest, unit - b)[1..];
      rest := rest / 256;
      b := b + 1;
    }
  }

  class SharedStringClass<T(==)> {
    var strVec: Option<seq<T>>
    const index: array<Byte>
    const charSet: seq<T>
    const unitSize: nat
    const length: nat
    const copyOnWrite: bool

    ghost function Abs(): Str<T>
      reads this, index
    {
      Str(strVec, index[..], charSet, unitSize, length)
    }

    ghost predicate Valid()
      reads this, index
    {
      Well(Abs())
    }

    ghost function Contents(): seq<T>
      reads this, index
      requires Valid()
    {
      ContentsOf(Abs())
    }

    constructor (strVec: Option<seq<T>>, index: array<Byte>, charSet: seq<T>, unitSize: nat, length: nat,
                 copyOnWrite: bool)
      ensures this.strVec == strVec && this.index == index && this.charSet == charSet
      ensures this.unitSize == unitSize && this.length == length && this.copyOnWrite == copyOnWrite
    {
      this.strVec := strVec;
      this.index, this.charSet, this.unitSize := index, charSet, unitSize;
      this.length, this.copyOnWrite := length, copyOnWrite;
    }

    /** The decoding loop. */
    method UnshareString() returns (x: seq<T>)
      requires Valid()
      ensures x == Contents()
    {
      x := [];
      var i := 0;
      while i < length
        invariant 0 <= i <= length && |x| == i
        invariant forall j :: 0 <= j < i ==> x[j] == Contents()[j]
      {
        var code := ReadUnit(index, unitSize, i);
        x := x + [charSet[code]];
        i := i + 1;
      }
    }

    method Elt(i: nat) returns (v: T)
      requires Valid() && i < length
      ensures v == Contents()[i]
    {
      if strVec.Some? {
        return strVec.value[i];
      }
      var code := ReadUnit(index, unitSize, i);
      v := charSet[code];
    }

    /** The data pointer fills the decoded copy on first use; what it points to is returned. */
    method DataPtr() returns (x: seq<T>)
      requires Valid()
      modifies this`strVec
      ensures Valid() && Contents() == old(Contents())
      ensures x == Contents() && strVec == Some(x)
    {
      if strVec.Some? {
        return strVec.value;
      }
      x := UnshareString();
      strVec := Some(x);
    }

    method DataPtrOrNull() returns (x: Option<seq<T>>)
      requires Valid()
      ensures x == strVec && (x.Some? ==> x.value == Contents())
    {
      x := strVec;
    }

    /** With copy-on-write the duplicate is a plain vector; without, it is the same object. */
    method Duplicate() returns (plain: seq<T>, alias: Option<SharedStringClass<T>>)
      requires Valid()
      ensures alias == if copyOnWrite then None else Some(this)
      ensures copyOnWrite ==> plain == Contents()
    {
      if copyOnWrite {
        plain := UnshareString();
        alias := None;
      } else {
        plain := [];
        alias := Some(this);
      }
    }

    /** What is exported reads the same; the exporter keeps its decoded copy and does not send it. */
    method SerializedState() returns (info: Serialized<T>)
      requires Valid()
      ensures Carries(info, Contents())
      ensures info.strVec.None? && info.index == Some(index) && info.copyOnWrite == copyOnWrite
    {
      info := Serialized(strVec, Some(index), charSet, unitSize, length, copyOnWrite);
      info := info.(strVec := None);
    }

    /** Writes one byte at byte offset `i`, whatever the unit size, and leaves the decoded copy
        alone; a string outside the character set is an error and changes nothing. That is what a
        write is meant to do exactly if it is safe. */
    method SetElt(i: nat, v: T) returns (ok: bool)
      requires Valid() && i < length
      modifies index
      ensures ok <==> v in charSet
      ensures Abs() == if ok then AfterSetElt(old(Abs()), i, v) else old(Abs())
      ensures ok ==> (WriteLands(old(Abs()), Abs(), i, v) <==> Safe(old(Abs()), i, v))
    {
      if v !in charSet {
        return false;
      }
      SetEltLandsIff(Abs(), i, v);
      var offset := 0;
      while charSet[offset] != v
        invariant 0 <= offset < |charSet| && v !in charSet[..offset] && v in charSet[offset..]
        decreases |charSet| - offset
      {
        offset := offset + 1;
      }
      assert offset == Code(charSet, v);
      index[i] := offset % 256;
      ok := true;
    }
  }

  method ReadUnit(a: array<Byte>, unit: nat, i: nat) returns (code: nat)
    requires Offset(i, unit) + unit <= a.Length
    ensures code == UnitAt(a[..], unit, i)
  {
    code := 0;
    var b := unit;
    var s := i * unit;
    OffsetIsProduct(i, unit);
    while b > 0
      invariant 0 <= b <= unit && code == LeValue(a[s + b..s + unit])
    {
      b := b - 1;
      assert a[s + b..s + unit][1..] == a[s + b + 1..s + unit];
      code := a[s + b] + 256 * code;
    }
    assert a[s..s + unit] == Element(a[..], unit, i);
  }

  // ---------- creation ----------

  /** The map of the first `|x|` strings to their codes. */
  ghost predicate Interned<T>(codes: map<T, nat>, x: seq<T>) {
    && codes.Keys == (set v | v in x)
    && |codes| == |Distinct(x)|
    && (forall v :: v in codes ==> v in Distinct(x) && codes[v] == Code(Distinct(x), v))
  }

  lemma InternOne<T>(codes: map<T, nat>, x: seq<T>, w: T)
    requires Interned(codes, x)
    ensures Interned(if w in codes then codes else codes[w := |codes|], x + [w])
  {
    DistinctHasAll(x);
    assert (x + [w])[..|x|] == x;
    if w !in codes {
      InternNew(codes, x, w);
    }
  }

  lemma InternNew<T>(codes: map<T, nat>, x: seq<T>, w: T)
    requires Interned(codes, x) && w !in codes
    ensures Interned(codes[w := |codes|], x + [w])
  {
    DistinctHasAll(x);
    DistinctNew(x, w);
    MapGrows(codes, w);
    KeysGrow(codes, x, w);
    CodesGrow(codes, Distinct(x), w);
  }

  lemma KeysGrow<T>(codes: map<T, nat>, x: seq<T>, w: T)
    requires codes.Keys == set v | v in x
    ensures codes[w := |codes|].Keys == set v | v in x + [w]
  {
  }

  lemma CodesGrow<T>(codes: map<T, nat>, d: seq<T>, w: T)
    requires w !in d && |codes| == |d|
    requires forall v :: v in codes ==> v in d && codes[v] == Code(d, v)
    ensures var next := codes[w := |codes|];
            forall v :: v in next ==> v in d + [w] && next[v] == Code(d + [w], v)
  {
    CodesInLonger(d, w);
  }

  lemma DistinctNew<T>(x: seq<T>, w: T)
    requires w !in Distinct(x)
    ensures Distinct(x + [w]) == Distinct(x) + [w]
  {
    assert (x + [w])[..|x|] == x;
  }

  lemma MapGrows<T>(codes: map<T, nat>, w: T)
    requires w !in codes
    ensures |codes[w := |codes|]| == |codes| + 1
  {
    assert codes[w := |codes|].Keys == codes.Keys + {w};
  }

  lemma InternedSlot<T>(codes: map<T, nat>, x: seq<T>, k: nat)
    requires Interned(codes, x) && k < |Distinct(x)|
    ensures Distinct(x)[k] in codes && codes[Distinct(x)[k]] == k
  {
    var d := Distinct(x);
    DistinctHasAll(x);
    assert d[k] in d;
    assert d[Code(d, d[k])] == d[k];
  }

  method InternNext<T(==)>(codes: map<T, nat>, w: T, ghost seen: seq<T>) returns (next: map<T, nat>)
    requires Interned(codes, seen)
    ensures Interned(next, seen + [w])
  {
    InternOne(codes, seen, w);
    next := if w in codes then codes else codes[w := |codes|];
  }

  /** The first loop: every new string gets the number of strings seen before it as its code. */
  method Intern<T(==)>(x: seq<T>) returns (codes: map<T, nat>)
    ensures Interned(codes, x)
  {
    codes := map[];
    for i := 0 to |x|
      invariant Interned(codes, x[..i])
    {
      codes := InternNext(codes, x[i], x[..i]);
      assert x[..i + 1] == x[..i] + [x[i]];
    }
    assert x[..|x|] == x;
  }

  /** The last loop: the map is walked in whatever order it has, and every slot gets filled. */
  method FillCharSet<T(==)>(codes: map<T, nat>, blank: T, ghost x: seq<T>) returns (charSet: seq<T>)
    requires Interned(codes, x)
    ensures charSet == Distinct(x)
  {
    charSet := seq(|codes|, _ => blank);
    var rest := codes.Keys;
    while rest != {}
      invariant rest <= codes.Keys && |charSet| == |codes|
      invariant forall v :: v in codes && v !in rest ==> charSet[codes[v]] == v
      decreases rest
    {
      var v :| v in rest;
      charSet := charSet[codes[v] := v];
      rest := rest - {v};
    }
    forall k | 0 <= k < |charSet| ensures charSet[k] == Distinct(x)[k] {
      InternedSlot(codes, x, k);
    }
  }

  lemma EncodedNext<T>(x: seq<T>, charSet: seq<T>, unit: nat, i: nat)
    requires i < |x| && x[i] in charSet
    ensures Encoded(x[..i + 1], charSet, unit) == Encoded(x[..i], charSet, unit) + LeBytes(Code(charSet, x[i]), unit)
  {
    assert x[..i + 1][..i] == x[..i];
  }

  lemma StoredPrefix(bytes: seq<Byte>, unit: nat, i: nat, code: nat)
    requires Offset(i, unit) + unit <= |bytes|
    ensures Offset(i + 1, unit) == Offset(i, unit) + unit
    ensures Stored(bytes, unit, i, code)[..Offset(i + 1, unit)] == bytes[..Offset(i, unit)] + LeBytes(code, unit)
  {
    ElementsApart(i, i + 1, unit);
  }

  /** The second loop: the code of every element, at the chosen width. */
  method EncodeInto<T(==)>(x: seq<T>, codes: map<T, nat>, unit: nat, index: array<Byte>)
    requires Interned(codes, x) && Vector(index[..], unit, |x|)
    modifies index
    ensures index[..] == Encoded(x, Distinct(x), unit)
  {
    ghost var d := Distinct(x);
    DistinctHasAll(x);
    var i := 0;
    while i < |x|
      invariant 0 <= i <= |x| && Offset(i, unit) <= index.Length
      invariant index[..Offset(i, unit)] == Encoded(x[..i], d, unit)
    {
      ElementsApart(i, |x|, unit);
      EncodedNext(x, d, unit, i);
      StoredPrefix(index[..], unit, i, Code(d, x[i]));
      StoreUnit(index, unit, i, codes[x[i]]);
      i := i + 1;
    }
    assert x[..i] == x && index[..] == index[..Offset(i, unit)];
  }

  /** What is made of a vector. */
  ghost function Made<T>(x: seq<T>): Str<T> {
    var d := Distinct(x);
    Str(Some(x), Encoded(x, d, UnitSize(|d|)), d, UnitSize(|d|), |x|)
  }

  /** The buffer, the character set and the object, once the codes and the unit size are known. */
  method MakeSharedString<T(==)>(x: seq<T>, codes: map<T, nat>, unit: nat, copyOnWrite: bool, blank: T)
    returns (s: SharedStringClass<T>)
    requires Interned(codes, x) && unit == UnitSize(|codes|)
    ensures fresh(s) && fresh(s.index) && s.Abs() == Made(x) && s.copyOnWrite == copyOnWrite
  {
    OffsetIsProduct(|x|, unit);
    var index := new Byte[|x| * unit](_ => 0);
    EncodeInto(x, codes, unit, index);
    var charSet := FillCharSet(codes, blank, x);
    s := new SharedStringClass(Some(x), index, charSet, unit, |x|, copyOnWrite);
  }

  /** Sharing a character vector. There is no result exactly when no unit size is accepted, which
      takes more than 2^64 distinct strings; otherwise the shared vector decodes to the source. */
  method CreateSharedStringFromSource<T(==)>(x: seq<T>, copyOnWrite: bool, blank: T)
    returns (r: Option<SharedStringClass<T>>)
    ensures r.Some? <==> |Distinct(x)| <= 0x1_0000_0000_0000_0000
    ensures r.Some? ==> fresh(r.value) && fresh(r.value.index) && r.value.copyOnWrite == copyOnWrite
    ensures r.Some? ==> r.value.Abs() == Made(x) && r.value.Valid() && r.value.Contents() == x
  {
    var codes := Intern(x);
    var unit := UnitSize(|codes|);
    UnitSizeIsLeast(|codes|);
    if !Accepted(unit) {
      return None;
    }
    EncodedReads(x);
    var s := MakeSharedString(x, codes, unit, copyOnWrite, blank);
    r := Some(s);
  }

  /** Receiving a serialized string: without an index there is no vector, and otherwise it reads
      whatever the state carries. */
  method Unserialize<T(==)>(info: Serialized<T>) returns (r: Option<SharedStringClass<T>>)
    ensures r.Some? <==> info.index.Some?
    ensures r.Some? ==> fresh(r.value) && r.value.index == info.index.value && r.value.strVec == info.strVec
                        && r.value.copyOnWrite == info.copyOnWrite
    ensures forall x :: Carries(info, x) ==> r.Some? && r.value.Valid() && r.value.Contents() == x
  {
    if info.index.None? {
      return None;
    }
    var s := new SharedStringClass(
      info.strVec, info.index.value, info.charSet, info.unitSize, info.length, info.copyOnWrite);
    r := Some(s);
  }

  /** The round trip: whatever becomes of the index on the way, as long as its bytes are the same,
      the received vector has the contents of the sent one and an empty decoded copy. */
  method SendAndReceive<T(==)>(sender: SharedStringClass<T>, arrived: Option<array<Byte>>)
    returns (r: Option<SharedStringClass<T>>)
    requires sender.Valid() && (arrived.Some? ==> arrived.value[..] == sender.index[..])
    ensures r.Some? <==> arrived.Some?
    ensures r.Some? ==> fresh(r.value) && r.value.Valid() && r.value.strVec.None?
                        && r.value.Contents() == sender.Contents() && r.value.copyOnWrite == sender.copyOnWrite
  {
    var info := sender.SerializedState();
    info := info.(index := arrived);
    r := Unserialize(info);
    assert arrived.Some? ==> Carries(info, sender.Contents());
  }
}
