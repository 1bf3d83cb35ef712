/**
  Writing an element of a shared character vector (sharedString_set_elt in
  src/stringAltrepOperations.cpp): when the write does what it is meant to do. The code stores
  one byte at byte offset i for every unit size, and does not touch the decoded copy.
 */
module StringWrite {
  import opened Wrappers
  import opened OperatingSystem
  import opened Layout
  import opened CodeWidth
  import opened StringCodec

  ghost function AfterSetElt<T>(s: Str<T>, i: nat, v: T): Str<T>
    requires i < |s.bytes| && v in s.charSet
  {
    s.(bytes := ByteWritten(s.bytes, s.charSet, i, v))
  }

  /** What a write is meant to do: position `i` reads `v`, all others read what they did, every
      code stays in range, and the decoded copy still says the same as the index. */
  ghost predicate WriteLands<T>(s: Str<T>, t: Str<T>, i: nat, v: T)
    requires Well(s) && i < s.length
  {
    Well(t) && t.length == s.length && ContentsOf(t) == ContentsOf(s)[i := v]
  }

  /** What a caller can check before the write. Apart from one-byte codes, only position 0 within
      the same block of 256 codes, or a position that holds the string already, is safe; and
      with a decoded copy nothing may change at all. */
  ghost predicate Safe<T>(s: Str<T>, i: nat, v: T)
    requires Well(s) && i < s.length && v in s.charSet
  {
    var code := Code(s.charSet, v);
    && (s.cache.Some? ==> s.cache.value[i] == v)
    && (|| s.unit == 1
        || (i == 0 && UnitAt(s.bytes, s.unit, 0) / 256 == code / 256)
        || (i > 0 && UnitAt(s.bytes, s.unit, i) == code && s.bytes[i] == code % 256))
  }

  // ---------- one byte in one unit ----------

  /** Which unit byte `i` belongs to: i / unit. */
  function UnitOf(i: nat, unit: nat): nat
    requires Accepted(unit)
  {
    if unit == 1 then i else if unit == 2 then i / 2 else if unit == 4 then i / 4 else i / 8
  }

  /** And at which place in it: i % unit. */
  function PlaceIn(i: nat, unit: nat): nat
    requires Accepted(unit)
  {
    if unit == 1 then 0 else if unit == 2 then i % 2 else if unit == 4 then i % 4 else i % 8
  }

  lemma Locate(i: nat, unit: nat)
    requires Accepted(unit)
    ensures PlaceIn(i, unit) < unit && i == Offset(UnitOf(i, unit), unit) + PlaceIn(i, unit)
    ensures UnitOf(i, unit) <= i && (unit > 1 && i > 0 ==> UnitOf(i, unit) < i)
  {
    OffsetIsProduct(UnitOf(i, unit), unit);
  }

  /** A byte written at place `m` of unit `k` changes that unit's code by so much at that place,
      and no other unit. */
  lemma ByteTouchesOneUnit(bytes: seq<Byte>, unit: nat, n: nat, i: nat, k: nat, m: nat, y: Byte, j: nat)
    requires Vector(bytes, unit, n) && m < unit && i == Offset(k, unit) + m && i < |bytes| && j < n && k < n
    ensures Offset(j, unit) + unit <= |bytes|
    ensures UnitAt(Replaced(bytes, i, [y]), unit, j) ==
            if j == k then UnitAt(bytes, unit, k) + (y - bytes[i]) * Pow256(m) else UnitAt(bytes, unit, j)
  {
    ByteChangesElement(bytes, unit, n, i, k, m, y, j);
    if j == k {
      LeValueUpdate(Element(bytes, unit, k), m, y);
    }
  }

  lemma ByteChangesElement(bytes: seq<Byte>, unit: nat, n: nat, i: nat, k: nat, m: nat, y: Byte, j: nat)
    requires Vector(bytes, unit, n) && m < unit && i == Offset(k, unit) + m && i < |bytes| && j < n && k < n
    ensures Offset(j, unit) + unit <= |bytes| && Offset(k, unit) + unit <= |bytes|
    ensures Element(bytes, unit, k)[m] == bytes[i]
    ensures Element(Replaced(bytes, i, [y]), unit, j)
            == if j == k then Element(bytes, unit, k)[m := y] else Element(bytes, unit, j)
  {
    ElementsApart(k, n, unit);
    ByteInStretch(bytes, Offset(k, unit), unit, m, y);
    OneElementReplaced(bytes, unit, n, k, Element(bytes, unit, k)[m := y], j);
  }

  lemma ByteInStretch(bytes: seq<Byte>, at: nat, size: nat, m: nat, y: Byte)
    requires m < size && at + size <= |bytes|
    ensures Replaced(bytes, at + m, [y]) == Replaced(bytes, at, bytes[at..at + size][m := y])
  {
  }

  // ---------- from contents to codes ----------

  ghost function CodeAt<T>(s: Str<T>, j: nat): nat
    requires Decodable(s.bytes, s.charSet, s.unit, s.length) && j < s.length
  {
    UnitAt(s.bytes, s.unit, j)
  }

  /** The codes are what they should be after the write. */
  ghost predicate CodesLand<T>(s: Str<T>, bytes: seq<Byte>, i: nat, v: T)
    requires Well(s) && i < s.length && v in s.charSet && |bytes| == |s.bytes|
  {
    forall j: nat :: j < s.length ==>
      Offset(j, s.unit) + s.unit <= |bytes|
      && UnitAt(bytes, s.unit, j) == if j == i then Code(s.charSet, v) else UnitAt(s.bytes, s.unit, j)
  }

  /** A new buffer lands a write exactly when its codes do and the decoded copy, if there is one,
      held the string before. */
  lemma LandsIffCodesLand<T>(s: Str<T>, bytes: seq<Byte>, i: nat, v: T)
    requires Well(s) && i < s.length && v in s.charSet && |bytes| == |s.bytes|
    ensures WriteLands(s, s.(bytes := bytes), i, v)
            <==> CodesLand(s, bytes, i, v) && (s.cache.Some? ==> s.cache.value[i] == v)
  {
    var t := s.(bytes := bytes);
    if CodesLand(s, bytes, i, v) {
      assert Decodable(t.bytes, t.charSet, t.unit, t.length);
      assert ContentsOf(t) == ContentsOf(s)[i := v];
    }
    if WriteLands(s, t, i, v) {
      forall j: nat | j < s.length
        ensures UnitAt(bytes, s.unit, j) == if j == i then Code(s.charSet, v) else UnitAt(s.bytes, s.unit, j)
      {
        assert ContentsOf(t)[j] == ContentsOf(s)[i := v][j];
      }
    }
  }

  // ---------- the main result ----------

  /** What the write does to the codes, right or wrong: it changes the byte at one place of one code,
      to the low byte of the new code, and no other code. */
  lemma SetEltTouches<T>(s: Str<T>, i: nat, v: T, j: nat)
    requires Well(s) && i < s.length && v in s.charSet && j < s.length
    ensures Offset(j, s.unit) + s.unit <= |s.bytes|
    ensures UnitAt(AfterSetElt(s, i, v).bytes, s.unit, j) == CodeAt(s, j) +
            if j == UnitOf(i, s.unit) then (Code(s.charSet, v) % 256 - s.bytes[i]) * Pow256(PlaceIn(i, s.unit)) else 0
  {
    Locate(i, s.unit);
    ByteTouchesOneUnit(s.bytes, s.unit, s.length, i, UnitOf(i, s.unit), PlaceIn(i, s.unit),
                       Code(s.charSet, v) % 256, j);
  }

  /** One-byte codes: the write always lands in the index. */
  lemma NarrowWrite<T>(s: Str<T>, i: nat, v: T)
    requires Well(s) && i < s.length && v in s.charSet && s.unit == 1
    ensures CodesLand(s, ByteWritten(s.bytes, s.charSet, i, v), i, v)
  {
    Pow256At8();
    OffsetIsProduct(i, 1);
    var code := Code(s.charSet, v);
    forall j: nat | j < s.length
      ensures var after := ByteWritten(s.bytes, s.charSet, i, v);
              Offset(j, 1) + 1 <= |after| && UnitAt(after, 1, j) == if j == i then code else UnitAt(s.bytes, 1, j)
    {
      ByteTouchesOneUnit(s.bytes, 1, s.length, i, i, 0, code % 256, j);
      assert Element(s.bytes, 1, i) == [s.bytes[i]];
    }
  }

  lemma FirstUnits<T>(s: Str<T>, v: T, j: nat)
    requires Well(s) && 0 < s.length && v in s.charSet && j < s.length
    ensures Offset(j, s.unit) + s.unit <= |s.bytes|
    ensures UnitAt(ByteWritten(s.bytes, s.charSet, 0, v), s.unit, j)
            == UnitAt(s.bytes, s.unit, j) + if j == 0 then Code(s.charSet, v) % 256 - s.bytes[0] else 0
    ensures j == 0 ==> UnitAt(s.bytes, s.unit, 0) % 256 == s.bytes[0]
  {
    ByteTouchesOneUnit(s.bytes, s.unit, s.length, 0, 0, 0, Code(s.charSet, v) % 256, j);
    if j == 0 {
      LowByte(Element(s.bytes, s.unit, 0));
    }
  }

  lemma LowByte(b: seq<Byte>)
    requires |b| >= 1
    ensures LeValue(b) % 256 == b[0]
  {
  }

  /** Position 0 of wider codes: the low byte is replaced and the high bytes stay. */
  lemma FirstWrite<T>(s: Str<T>, v: T)
    requires Well(s) && 0 < s.length && v in s.charSet
    ensures CodesLand(s, ByteWritten(s.bytes, s.charSet, 0, v), 0, v)
            <==> CodeAt(s, 0) / 256 == Code(s.charSet, v) / 256
  {
    var after := ByteWritten(s.bytes, s.charSet, 0, v);
    FirstUnits(s, v, 0);
    SameBlock(CodeAt(s, 0), Code(s.charSet, v), s.bytes[0]);
    forall j: nat | 0 < j < s.length
      ensures Offset(j, s.unit) + s.unit <= |after| && UnitAt(after, s.unit, j) == UnitAt(s.bytes, s.unit, j)
    {
      FirstUnits(s, v, j);
    }
  }

  lemma SameBlock(was: nat, code: nat, low: nat)
    requires low == was % 256
    ensures was + (code % 256 - low) == code <==> was / 256 == code / 256
  {
  }

  /** Any other position of wider codes: the byte belongs to an earlier unit, so the position
      itself does not change, and the earlier one does unless the byte was the same. */
  lemma MisplacedWrite<T>(s: Str<T>, i: nat, v: T)
    requires Well(s) && 0 < i < s.length && v in s.charSet && s.unit > 1
    ensures CodesLand(s, ByteWritten(s.bytes, s.charSet, i, v), i, v)
            <==> CodeAt(s, i) == Code(s.charSet, v) && s.bytes[i] == Code(s.charSet, v) % 256
  {
    var code, k := Code(s.charSet, v), UnitOf(i, s.unit);
    var bytes := AfterSetElt(s, i, v).bytes;
    Locate(i, s.unit);
    SetEltTouches(s, i, v, i);
    SetEltTouches(s, i, v, k);
    ZeroProduct(code % 256 - s.bytes[i], Pow256(PlaceIn(i, s.unit)));
    if CodeAt(s, i) == code && s.bytes[i] == code % 256 {
      forall j: nat | j < s.length
        ensures Offset(j, s.unit) + s.unit <= |bytes| && UnitAt(bytes, s.unit, j) == CodeAt(s, j)
      {
        SetEltTouches(s, i, v, j);
      }
    }
  }

  lemma ZeroProduct(d: int, p: nat)
    requires p >= 1
    ensures d * p == 0 <==> d == 0
  {
  }

  /** The write does what it is meant to do if and only if it is safe. */
  lemma SetEltLandsIff<T>(s: Str<T>, i: nat, v: T)
    requires Well(s) && i < s.length && v in s.charSet
    ensures WriteLands(s, AfterSetElt(s, i, v), i, v) <==> Safe(s, i, v)
  {
    LandsIffCodesLand(s, ByteWritten(s.bytes, s.charSet, i, v), i, v);
    if s.unit == 1 {
      NarrowWrite(s, i, v);
    } else if i == 0 {
      FirstWrite(s, v);
    } else {
      MisplacedWrite(s, i, v);
    }
  }

  /** Had the write used the width the encoder uses, it would land whenever there is no decoded
      copy, for every unit size. */
  lemma WriteAtEncoderWidthLands<T>(s: Str<T>, i: nat, v: T)
    requires Well(s) && i < s.length && v in s.charSet
    ensures Offset(i, s.unit) + s.unit <= |s.bytes|
    ensures WriteLands(s, s.(bytes := Stored(s.bytes, s.unit, i, Code(s.charSet, v))), i, v)
            <==> (s.cache.Some? ==> s.cache.value[i] == v)
  {
    StoredCodesLand(s, i, v);
    LandsIffCodesLand(s, Stored(s.bytes, s.unit, i, Code(s.charSet, v)), i, v);
  }

  lemma StoredCodesLand<T>(s: Str<T>, i: nat, v: T)
    requires Well(s) && i < s.length && v in s.charSet
    ensures Offset(i, s.unit) + s.unit <= |s.bytes|
    ensures CodesLand(s, Stored(s.bytes, s.unit, i, Code(s.charSet, v)), i, v)
  {
    var code := Code(s.charSet, v);
    ElementsApart(i, s.length, s.unit);
    forall j: nat | j < s.length
      ensures Offset(j, s.unit) + s.unit <= |s.bytes|
              && UnitAt(Stored(s.bytes, s.unit, i, code), s.unit, j)
                 == if j == i then code else UnitAt(s.bytes, s.unit, j)
    {
      StoredUnit(s.bytes, s.unit, s.length, i, code, j);
    }
  }

  lemma StoredUnit(bytes: seq<Byte>, unit: nat, n: nat, i: nat, code: nat, j: nat)
    requires Vector(bytes, unit, n) && i < n && j < n && code < Pow256(unit)
    ensures Offset(i, unit) + unit <= |bytes| && Offset(j, unit) + unit <= |bytes|
    ensures UnitAt(Stored(bytes, unit, i, code), unit, j) == if j == i then code else UnitAt(bytes, unit, j)
  {
    ElementsApart(i, n, unit);
    if j == i {
      StoredReadsBack(bytes, unit, i, code);
    } else {
      StoredKeepsOthers(bytes, unit, n, i, code, j);
    }
  }

  // ---------- writes by others ----------

  /** Another holder of the index has changed it: with a decoded copy the string is well-formed
      still if and only if the index is back to the same bytes; without one, if and only if the
      codes are in range. */
  lemma ForeignWriteKeepsWellIff<T>(s: Str<T>, bytes: seq<Byte>)
    requires Well(s) && |bytes| == |s.bytes|
    ensures Well(s.(bytes := bytes)) <==>
            if s.cache.Some? then bytes == s.bytes else Decodable(bytes, s.charSet, s.unit, s.length)
  {
    DecodesTheSameIff(s.bytes, bytes, s.charSet, s.unit, s.length);
  }

  lemma {:induction false} DistinctOfNoDup<T>(x: seq<T>)
    requires NoDup(x)
    ensures Distinct(x) == x
  {
    if x != [] {
      var last := |x| - 1;
      DistinctOfNoDup(x[..last]);
    }
  }

  /** A write that goes wrong: a vector of 257 different strings, as a process receives it, in
      which the second is set to the third. */
  lemma WideWriteGoesWrong()
    ensures var x := seq(257, k => k);
            var s := Str(None, Encoded(x, x, 2), x, 2, 257);
            && Distinct(x) == x && UnitSize(257) == 2
            && Well(s) && ContentsOf(s) == x && x[2] == 2
            && !WriteLands(s, AfterSetElt(s, 1, 2), 1, 2)
  {
    var x := seq(257, k => k);
    var s := Str(None, Encoded(x, x, 2), x, 2, 257);
    DistinctOfNoDup(x);
    Pow256At8();
    UnitSizeIsLeast(257);
    DecodeUndoesEncode(x);
    EncodedUnit(x, x, 2, 1);
    assert x[1] == 1 && x[2] == 2;
    LengthFits(2, 257);
    assert !Safe(s, 1, 2);
    SetEltLandsIff(s, 1, 2);
  }
}
