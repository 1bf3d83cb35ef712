/**
  How a character vector becomes codes in a byte buffer and back (src/altrep.cpp). Strings are
  compared by identity of their cached representation, so `T` is any type with equality.
 */
module StringCodec {
  import opened Wrappers
  import opened OperatingSystem
  import opened Layout
  import opened CodeWidth

  // ---------- distinct strings and their codes ----------

  /** The distinct elements, in the order of their first occurrence. */
  function Distinct<T(==)>(x: seq<T>): seq<T> {
    if x == [] then []
    else
      var d := Distinct(x[..|x| - 1]);
      if x[|x| - 1] in d then d else d + [x[|x| - 1]]
  }

  predicate NoDup<T(==)>(d: seq<T>) {
    forall i, j :: 0 <= i < j < |d| ==> d[i] != d[j]
  }

  function Code<T(==)>(d: seq<T>, v: T): (c: nat)
    requires v in d
    ensures c < |d| && d[c] == v && forall j :: 0 <= j < c ==> d[j] != v
  {
    if d[0] == v then 0 else 1 + Code(d[1..], v)
  }

  lemma {:induction false} DistinctHasAll<T>(x: seq<T>)
    ensures NoDup(Distinct(x))
    ensures forall v :: v in Distinct(x) <==> v in x
  {
    if x != [] {
      var last := |x| - 1;
      DistinctHasAll(x[..last]);
      assert forall v :: v in x <==> v in x[..last] || v == x[last];
    }
  }

  /** Adding a new string at the end gives it the next code and leaves the others theirs. */
  lemma CodesInLonger<T>(d: seq<T>, w: T)
    requires w !in d
    ensures Code(d + [w], w) == |d|
    ensures forall v :: v in d ==> Code(d + [w], v) == Code(d, v)
  {
    var l := d + [w];
    assert forall j :: 0 <= j < |d| ==> l[j] == d[j] && d[j] in d;
    forall v | v in d ensures Code(l, v) == Code(d, v) {
      assert l[Code(d, v)] == v;
    }
  }

  /** Where a string first occurs. */
  ghost predicate FirstAt<T>(x: seq<T>, v: T, i: nat) {
    i < |x| && x[i] == v && forall j :: 0 <= j < i ==> x[j] != v
  }

  /** Codes follow first occurrence: the string with the smaller code occurs first. */
  lemma {:induction false} CodesFollowFirstOccurrence<T>(x: seq<T>, a: nat, b: nat, i: nat, j: nat)
    requires a < b < |Distinct(x)|
    requires FirstAt(x, Distinct(x)[a], i) && FirstAt(x, Distinct(x)[b], j)
    ensures i < j
  {
    var last := |x| - 1;
    var d := Distinct(x[..last]);
    DistinctHasAll(x[..last]);
    if b < |d| {
      assert d[a] in x[..last] && d[b] in x[..last];
      FirstInPrefix(x, d[a], i);
      FirstInPrefix(x, d[b], j);
      CodesFollowFirstOccurrence(x[..last], a, b, i, j);
    } else {
      assert d[a] in x[..last];
      FirstInPrefix(x, d[a], i);
      assert x[last] !in x[..last];
      assert forall k :: 0 <= k < last ==> x[..last][k] == x[k];
    }
  }

  lemma FirstInPrefix<T>(x: seq<T>, v: T, i: nat)
    requires x != [] && FirstAt(x, v, i) && v in x[..|x| - 1]
    ensures FirstAt(x[..|x| - 1], v, i)
  {
    var k :| 0 <= k < |x| - 1 && x[k] == v;
    assert i <= k;
  }

  // ---------- units of bytes ----------

  /** The stored bytes of a code of `unit` bytes, lowest first; higher bytes are cut off. */
  function LeBytes(v: nat, unit: nat): (b: seq<Byte>)
    ensures |b| == unit
  {
    if unit == 0 then [] else [v % 256] + LeBytes(v / 256, unit - 1)
  }

  function LeValue(b: seq<Byte>): nat {
    if b == [] then 0 else b[0] + 256 * LeValue(b[1..])
  }

  lemma {:induction false} LeRoundTrip(v: nat, unit: nat)
    requires v < Pow256(unit)
    ensures LeValue(LeBytes(v, unit)) == v
  {
    if unit > 0 {
      LeRoundTrip(v / 256, unit - 1);
      assert LeBytes(v, unit)[1..] == LeBytes(v / 256, unit - 1);
    }
  }

  /** Changing one byte changes the value by that much at that place. */
  lemma {:induction false} LeValueUpdate(b: seq<Byte>, m: nat, y: Byte)
    requires m < |b|
    ensures LeValue(b[m := y]) == LeValue(b) + (y - b[m]) * Pow256(m)
  {
    if m == 0 {
      assert b[0 := y][1..] == b[1..];
    } else {
      LeValueUpdate(b[1..], m - 1, y);
      assert b[m := y][1..] == b[1..][m - 1 := y];
      var p, d := Pow256(m - 1), y - b[m];
      assert 256 * (d * p) == d * (256 * p);
    }
  }

  /** The code read at unit `i`. */
  function UnitAt(bytes: seq<Byte>, unit: nat, i: nat): nat
    requires Offset(i, unit) + unit <= |bytes|
  {
    LeValue(Element(bytes, unit, i))
  }

  /** The buffer after a code is stored at unit `i`. */
  function Stored(bytes: seq<Byte>, unit: nat, i: nat, v: nat): (r: seq<Byte>)
    requires Offset(i, unit) + unit <= |bytes|
    ensures |r| == |bytes|
  {
    Replaced(bytes, Offset(i, unit), LeBytes(v, unit))
  }

  /** Storing a unit leaves the bytes of every other unit alone. */
  lemma StoredKeepsOthers(bytes: seq<Byte>, unit: nat, n: nat, i: nat, v: nat, j: nat)
    requires Vector(bytes, unit, n) && i < n && j < n && i != j
    ensures Offset(i, unit) + unit <= |bytes| && Offset(j, unit) + unit <= |bytes|
    ensures Element(Stored(bytes, unit, i, v), unit, j) == Element(bytes, unit, j)
  {
    OneElementReplaced(bytes, unit, n, i, LeBytes(v, unit), j);
  }

  /** A code that fits its unit reads back. */
  lemma StoredReadsBack(bytes: seq<Byte>, unit: nat, i: nat, v: nat)
    requires Offset(i, unit) + unit <= |bytes| && v < Pow256(unit)
    ensures UnitAt(Stored(bytes, unit, i, v), unit, i) == v
  {
    assert Element(Stored(bytes, unit, i, v), unit, i) == LeBytes(v, unit);
    LeRoundTrip(v, unit);
  }

  // ---------- decoding ----------

  ghost predicate Decodable<T>(bytes: seq<Byte>, charSet: seq<T>, unit: nat, n: nat) {
    && Vector(bytes, unit, n)
    && forall i: nat :: i < n ==> Offset(i, unit) + unit <= |bytes| && UnitAt(bytes, unit, i) < |charSet|
  }

  ghost function Decode<T>(bytes: seq<Byte>, charSet: seq<T>, unit: nat, n: nat): (x: seq<T>)
    requires Decodable(bytes, charSet, unit, n)
    ensures |x| == n
    ensures forall i: nat :: i < n ==> Offset(i, unit) + unit <= |bytes| && x[i] == charSet[UnitAt(bytes, unit, i)]
  {
    seq(n, i requires 0 <= i < n => charSet[UnitAt(bytes, unit, i)])
  }

  // ---------- encoding ----------

  /** The bytes the encoder stores: the code of every element, one unit after the other. */
  function Encoded<T(==)>(x: seq<T>, charSet: seq<T>, unit: nat): (b: seq<Byte>)
    ensures Vector(b, unit, |x|)
  {
    if x == [] then []
    else
      var last := |x| - 1;
      ElementsApart(last, |x|, unit);
      var code := if x[last] in charSet then Code(charSet, x[last]) else 0;
      Encoded(x[..last], charSet, unit) + LeBytes(code, unit)
  }

  lemma {:induction false} EncodedUnit<T>(x: seq<T>, charSet: seq<T>, unit: nat, i: nat)
    requires (forall v :: v in x ==> v in charSet) && |charSet| <= Pow256(unit) && i < |x|
    ensures Offset(i, unit) + unit <= |Encoded(x, charSet, unit)|
    ensures UnitAt(Encoded(x, charSet, unit), unit, i) == Code(charSet, x[i])
  {
    var last := |x| - 1;
    var code := Code(charSet, x[last]);
    ElementsApart(last, |x|, unit);
    ElementOfAppend(Encoded(x[..last], charSet, unit), LeBytes(code, unit), unit, last, i);
    if i == last {
      LeRoundTrip(code, unit);
    } else {
      EncodedUnit(x[..last], charSet, unit, i);
    }
  }

  /** Decoding undoes encoding, for every vector with no more distinct strings than there are
      codes of the unit size chosen for it. */
  lemma DecodeUndoesEncode<T>(x: seq<T>)
    requires |Distinct(x)| <= 0x1_0000_0000_0000_0000
    ensures var d := Distinct(x);
            var unit := UnitSize(|d|);
            && NoDup(d) && Accepted(unit) && |d| <= Pow256(unit)
            && Decodable(Encoded(x, d, unit), d, unit, |x|)
            && Decode(Encoded(x, d, unit), d, unit, |x|) == x
  {
    var d := Distinct(x);
    var unit := UnitSize(|d|);
    UnitSizeIsLeast(|d|);
    DistinctHasAll(x);
    forall i: nat | i < |x|
      ensures Offset(i, unit) + unit <= |Encoded(x, d, unit)|
              && UnitAt(Encoded(x, d, unit), unit, i) == Code(d, x[i])
    {
      EncodedUnit(x, d, unit, i);
    }
  }

  lemma {:induction false} LeValueInjective(a: seq<Byte>, b: seq<Byte>)
    requires |a| == |b| && LeValue(a) == LeValue(b)
    ensures a == b
  {
    if a != [] {
      LeValueInjective(a[1..], b[1..]);
      assert a == [a[0]] + a[1..] && b == [b[0]] + b[1..];
    }
  }

  /** Another buffer decodes to the same vector only if it is the same buffer. */
  lemma DecodesTheSameIff<T>(a: seq<Byte>, b: seq<Byte>, charSet: seq<T>, unit: nat, n: nat)
    requires NoDup(charSet) && Decodable(a, charSet, unit, n) && |b| == |a|
    ensures Decodable(b, charSet, unit, n) && Decode(b, charSet, unit, n) == Decode(a, charSet, unit, n) <==> b == a
  {
    if Decodable(b, charSet, unit, n) && Decode(b, charSet, unit, n) == Decode(a, charSet, unit, n) {
      forall i: nat | i < n
        ensures Elements(a, unit, n)[i] == Elements(b, unit, n)[i]
      {
        assert Decode(b, charSet, unit, n)[i] == Decode(a, charSet, unit, n)[i];
        assert UnitAt(a, unit, i) == UnitAt(b, unit, i);
        LeValueInjective(Element(a, unit, i), Element(b, unit, i));
      }
      ElementsDetermineBytes(a, b, unit, n);
    }
  }

  /** The buffer after the code of `v` is stored as one byte at byte offset `i`. */
  function ByteWritten<T(==)>(bytes: seq<Byte>, charSet: seq<T>, i: nat, v: T): (r: seq<Byte>)
    requires i < |bytes| && v in charSet
    ensures |r| == |bytes|
  {
    Replaced(bytes, i, [Code(charSet, v) % 256])
  }

  // ---------- a shared string at one moment ----------

  /** Its decoded copy, index and character set, and its sizes. */
  datatype Str<T> = Str(cache: Option<seq<T>>, bytes: seq<Byte>, charSet: seq<T>, unit: nat, length: nat)

  /** The codes are in range, and the decoded copy, if there is one, is what they decode to. */
  ghost predicate Well<T>(s: Str<T>) {
    && Accepted(s.unit) && NoDup(s.charSet) && |s.charSet| <= Pow256(s.unit)
    && Decodable(s.bytes, s.charSet, s.unit, s.length) && s.length <= |s.bytes|
    && (s.cache.Some? ==> s.cache.value == ContentsOf(s))
  }

  /** What the index and the character set say, whether or not there is a decoded copy. */
  ghost function ContentsOf<T>(s: Str<T>): seq<T>
    requires Decodable(s.bytes, s.charSet, s.unit, s.length)
  {
    Decode(s.bytes, s.charSet, s.unit, s.length)
  }

  /** The clause on the length follows from the others: every position is a byte offset. */
  lemma LengthFits(unit: nat, n: nat)
    requires Accepted(unit)
    ensures n <= Offset(n, unit)
  {
    OffsetIsProduct(n, unit);
  }

  /** What is made of a vector is well-formed and reads as that vector. */
  lemma EncodedReads<T>(x: seq<T>)
    requires |Distinct(x)| <= 0x1_0000_0000_0000_0000
    ensures var d := Distinct(x);
            var s := Str(Some(x), Encoded(x, d, UnitSize(|d|)), d, UnitSize(|d|), |x|);
            Well(s) && ContentsOf(s) == x
  {
    DecodeUndoesEncode(x);
    LengthFits(UnitSize(|Distinct(x)|), |x|);
  }
}
