/** The width of a string code in bytes (src/altrep.cpp), with exact logarithms. */
module CodeWidth {

  function Pow256(b: nat): (r: nat)
    ensures r >= 1
  {
    if b == 0 then 1 else 256 * Pow256(b - 1)
  }

  function Pow2(c: nat): (r: nat)
    ensures r >= 1
  {
    if c == 0 then 1 else 2 * Pow2(c - 1)
  }

  /** ceil(log2(u) / 8): the least number of bytes, from `b` on, that tells `u` codes apart. */
  function CeilLog256(u: nat, b: nat): (r: nat)
    ensures r >= b && u <= Pow256(r) && (r > b ==> Pow256(r - 1) < u)
    decreases if u <= Pow256(b) then 0 else u - Pow256(b)
  {
    if u <= Pow256(b) then b else CeilLog256(u, b + 1)
  }

  /** ceil(log2(n)), from `c` on. */
  function CeilLog2(n: nat, c: nat): (r: nat)
    ensures r >= c && n <= Pow2(r) && (r > c ==> Pow2(r - 1) < n)
    decreases if n <= Pow2(c) then 0 else n - Pow2(c)
  {
    if n <= Pow2(c) then c else CeilLog2(n, c + 1)
  }

  /** The unit size chosen for `n` distinct strings. */
  function UnitSize(n: nat): nat {
    var unitElt := if n > 1 then n else 2;
    var unitBytes := CeilLog256(unitElt, 0);
    Pow2(CeilLog2(unitBytes, 0))
  }

  predicate Accepted(unit: nat) {
    unit == 1 || unit == 2 || unit == 4 || unit == 8
  }

  lemma {:induction false} Pow256Grows(a: nat, b: nat)
    requires a <= b
    ensures Pow256(a) <= Pow256(b)
    ensures a < b ==> Pow256(a) < Pow256(b)
    decreases b - a
  {
    if a < b { Pow256Grows(a, b - 1); }
  }

  lemma {:induction false} Pow2Grows(a: nat, b: nat)
    requires a <= b
    ensures Pow2(a) <= Pow2(b)
    decreases b - a
  {
    if a < b { Pow2Grows(a, b - 1); }
  }

  lemma Pow256At8()
    ensures Pow256(0) == 1 && Pow256(1) == 256 && Pow256(2) == 0x1_0000
    ensures Pow256(4) == 0x1_0000_0000 && Pow256(8) == 0x1_0000_0000_0000_0000
  {
    assert Pow256(3) == 0x100_0000;
    assert Pow256(5) == 0x100_0000_0000;
    assert Pow256(6) == 0x1_0000_0000_0000;
    assert Pow256(7) == 0x100_0000_0000_0000;
  }

  /** Rounding the number of bytes up to a power of two. */
  lemma RoundUp(bytes: nat)
    requires bytes >= 1
    ensures var unit := Pow2(CeilLog2(bytes, 0));
            if bytes == 1 then unit == 1 else if bytes == 2 then unit == 2
            else if bytes <= 4 then unit == 4 else if bytes <= 8 then unit == 8 else unit >= 16
  {
    var c := CeilLog2(bytes, 0);
    assert Pow2(0) == 1 && Pow2(1) == 2 && Pow2(2) == 4 && Pow2(3) == 8 && Pow2(4) == 16;
    if c > 4 { Pow2Grows(4, c); }
    if c > 0 && c - 1 >= 3 { Pow2Grows(3, c - 1); }
  }

  /** For every number of distinct strings up to 2^64 the unit size is accepted, tells that many
      codes apart, and is the least accepted one that does; beyond 2^64, and only there, the
      error branch is taken. */
  lemma UnitSizeIsLeast(n: nat)
    ensures Accepted(UnitSize(n)) <==> n <= 0x1_0000_0000_0000_0000
    ensures Accepted(UnitSize(n)) ==> n <= Pow256(UnitSize(n))
    ensures forall unit :: Accepted(unit) && n <= Pow256(unit) && Accepted(UnitSize(n)) ==> UnitSize(n) <= unit
  {
    var u := if n > 1 then n else 2;
    var bytes := CeilLog256(u, 0);
    Pow256At8();
    RoundUp(bytes);
    if n <= Pow256(8) {
      if bytes > 8 { Pow256Grows(8, bytes - 1); }
    } else if bytes <= 8 {
      Pow256Grows(bytes, 8);
    }
    if bytes <= 8 {
      Pow256Grows(bytes, UnitSize(n));
      forall unit | Accepted(unit) && n <= Pow256(unit)
        ensures UnitSize(n) <= unit
      {
        if unit < bytes { Pow256Grows(unit, bytes - 1); }
      }
    }
  }
}
