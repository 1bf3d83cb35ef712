/** Vectors laid out in bytes: elements of equal size, one after the other. */
module Layout {
  import opened OperatingSystem

  /** Where element `i` starts: i * size. */
  function Offset(i: nat, size: nat): nat {
    if i == 0 then 0 else Offset(i - 1, size) + size
  }

  lemma {:induction false} OffsetIsProduct(i: nat, size: nat)
    ensures Offset(i, size) == i * size
  {
    if i > 0 {
      OffsetIsProduct(i - 1, size);
      assert i * size == (i - 1) * size + size;
    }
  }

  /** The same for a number that may be negative. */
  function Times(p: int, size: nat): int {
    if p >= 0 then Offset(p, size) else 0 - Offset(-p, size)
  }

  lemma TimesIsProduct(p: int, size: nat)
    ensures Times(p, size) == p * size
  {
    if p >= 0 {
      OffsetIsProduct(p, size);
    } else {
      OffsetIsProduct(-p, size);
      assert -((-p) * size) == p * size;
    }
  }

  lemma {:induction false} ElementsApart(i: nat, j: nat, size: nat)
    requires i < j
    ensures Offset(i, size) + size <= Offset(j, size)
    ensures Offset(i + 1, size) == Offset(i, size) + size
    decreases j - i
  {
    if i + 1 < j { ElementsApart(i + 1, j, size); }
  }

  lemma OffsetGrows(i: nat, j: nat, size: nat)
    requires i <= j
    ensures Offset(i, size) <= Offset(j, size)
  {
    if i < j { ElementsApart(i, j, size); }
  }

  /** The bytes of element `i`. */
  function Element(bytes: seq<Byte>, size: nat, i: nat): (e: seq<Byte>)
    requires Offset(i, size) + size <= |bytes|
    ensures |e| == size
  {
    bytes[Offset(i, size)..Offset(i, size) + size]
  }

  /** `bytes` is a vector of `n` elements. */
  ghost predicate Vector(bytes: seq<Byte>, size: nat, n: nat) {
    |bytes| == Offset(n, size)
  }

  ghost function Elements(bytes: seq<Byte>, size: nat, n: nat): (v: seq<seq<Byte>>)
    requires Vector(bytes, size, n)
    ensures |v| == n
    ensures forall i: nat :: i < n ==> Offset(i, size) + size <= |bytes| && v[i] == Element(bytes, size, i)
  {
    forall i: nat | i < n ensures Offset(i, size) + size <= |bytes| { ElementsApart(i, n, size); }
    seq(n, i requires 0 <= i < n => Element(bytes, size, i))
  }

  /** The elements of a vector are all there is to its bytes. */
  lemma {:induction false} ElementsDetermineBytes(a: seq<Byte>, b: seq<Byte>, size: nat, n: nat)
    requires Vector(a, size, n) && Vector(b, size, n)
    requires Elements(a, size, n) == Elements(b, size, n)
    ensures a == b
    decreases n
  {
    if n > 0 {
      var cut := Offset(n - 1, size);
      PrefixElements(a, size, n);
      PrefixElements(b, size, n);
      ElementsDetermineBytes(a[..cut], b[..cut], size, n - 1);
      assert Elements(a, size, n)[n - 1] == Elements(b, size, n)[n - 1];
      assert a == a[..cut] + Element(a, size, n - 1) && b == b[..cut] + Element(b, size, n - 1);
    }
  }

  lemma SliceOfPrefix(a: seq<Byte>, cut: nat, from: nat, m: nat)
    requires from + m <= cut <= |a|
    ensures a[..cut][from..from + m] == a[from..from + m]
  {
  }

  lemma PrefixElements(a: seq<Byte>, size: nat, n: nat)
    requires Vector(a, size, n) && n > 0
    ensures Offset(n - 1, size) <= |a|
    ensures Elements(a[..Offset(n - 1, size)], size, n - 1) == Elements(a, size, n)[..n - 1]
  {
    var prefix := a[..Offset(n - 1, size)];
    forall i: nat {:trigger Offset(i, size)} | i < n - 1
      ensures Elements(prefix, size, n - 1)[i] == Elements(a, size, n)[..n - 1][i]
    {
      ElementsApart(i, n - 1, size);
      SliceOfPrefix(a, Offset(n - 1, size), Offset(i, size), size);
      assert Elements(prefix, size, n - 1)[i] == Element(prefix, size, i) == Element(a, size, i);
    }
  }

  lemma ElementOfAppend(g: seq<Byte>, e: seq<Byte>, size: nat, k: nat, i: nat)
    requires Vector(g, size, k) && |e| == size && i <= k
    ensures Offset(i, size) + size <= |g + e|
    ensures i < k ==> Offset(i, size) + size <= |g| && Element(g + e, size, i) == Element(g, size, i)
    ensures i == k ==> Element(g + e, size, i) == e
  {
    if i < k { ElementsApart(i, k, size); }
  }

  // ---------- replacing a stretch ----------

  /** The bytes from `at` on are replaced by `e`. */
  function Replaced(bytes: seq<Byte>, at: nat, e: seq<Byte>): (r: seq<Byte>)
    requires at + |e| <= |bytes|
    ensures |r| == |bytes|
    ensures forall k :: 0 <= k < |r| ==> r[k] == if at <= k < at + |e| then e[k - at] else bytes[k]
  {
    bytes[..at] + e + bytes[at + |e|..]
  }

  lemma ReplacedThere(bytes: seq<Byte>, at: nat, e: seq<Byte>)
    requires at + |e| <= |bytes|
    ensures Replaced(bytes, at, e)[at..at + |e|] == e
  {
  }

  lemma KeptElsewhere(bytes: seq<Byte>, at: nat, e: seq<Byte>, from: nat, m: nat)
    requires at + |e| <= |bytes| && from + m <= |bytes| && (from + m <= at || at + |e| <= from)
    ensures Replaced(bytes, at, e)[from..from + m] == bytes[from..from + m]
  {
  }

  /** Replacing one element leaves the bytes of the others alone. */
  lemma OneElementReplaced(bytes: seq<Byte>, size: nat, n: nat, i: nat, e: seq<Byte>, j: nat)
    requires Vector(bytes, size, n) && i < n && j < n && |e| == size
    ensures Offset(i, size) + size <= |bytes| && Offset(j, size) + size <= |bytes|
    ensures Element(Replaced(bytes, Offset(i, size), e), size, j) == if j == i then e else Element(bytes, size, j)
  {
    ElementsApart(i, n, size);
    ElementsApart(j, n, size);
    if j == i {
      ReplacedThere(bytes, Offset(i, size), e);
    } else {
      if j < i { ElementsApart(j, i, size); } else { ElementsApart(i, j, size); }
      KeptElsewhere(bytes, Offset(i, size), e, Offset(j, size), size);
    }
  }
}
