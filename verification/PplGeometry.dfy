/** Where the blocks of a k+m stripe live: the slot arithmetic of
    km/raid_km.h and the sector map of km/raid_km.c, for the fixed layout
    (parity at the tail) and the rotating one. Sectors are 512 bytes. */
module PplGeometry {
  import opened Arith

  /** sectors in a stripe unit, one 4 KB page */
  const PAGE: nat := 8

  /** k data and m parity members, a chunk of `chunk` sectors */
  datatype Geom = Geom(k: nat, m: nat, chunk: nat, rotating: bool) {
    function N(): nat { k + m }

    /** a chunk is a power of two pages */
    ghost predicate Valid() {
      && 1 <= k
      && 1 <= m
      && PowerOfTwo(chunk)
      && PAGE <= chunk
      && chunk % PAGE == 0
    }
  }

  ghost predicate PowerOfTwo(n: nat) {
    n == 1 || (2 <= n && n % 2 == 0 && PowerOfTwo(n / 2))
  }

  /** floor of the base-two logarithm */
  function Ilog2(n: nat): nat
    requires 1 <= n
  {
    if n == 1 then 0 else 1 + Ilog2(n / 2)
  }

  function Shr(x: nat, s: nat): nat {
    if s == 0 then x else Shr(x / 2, s - 1)
  }

  lemma {:induction false} HalfDiv(x: nat, n: nat)
    requires 1 <= n
    ensures (x / 2) / n == x / (2 * n)
  {
    var q, r := (x / 2) / n, (x / 2) % n;
    assert x / 2 == q * n + r;
    var low := x % 2;
    assert x == 2 * (q * n + r) + low;
    assert 2 * (q * n) == q * (2 * n);
    assert x == q * (2 * n) + (2 * r + low);
    DivModUnique(q, 2 * r + low, 2 * n);
  }

  /** Shifting by the logarithm divides, exactly when the divisor is a power
      of two: the append test leans on it. */
  lemma {:induction false} ShiftDivides(x: nat, n: nat)
    requires PowerOfTwo(n)
    ensures 1 <= n && Shr(x, Ilog2(n)) == x / n
  {
    if n > 1 {
      ShiftDivides(x / 2, n / 2);
      HalfDiv(x, n / 2);
      assert 2 * (n / 2) == n;
    }
  }

  /** first parity slot of a row */
  function PdIdx(g: Geom, row: nat): nat
    requires 1 <= g.k
  {
    if g.rotating then g.N() - 1 - row % g.N() else g.k
  }

  /** Parity rotates: of as many rows on end as there are members, each member is the first parity
      of exactly one. */
  lemma ParityRotates(g: Geom, row: nat, slot: nat) returns (r: nat)
    requires 1 <= g.k && g.rotating && slot < g.N()
    ensures row <= r < row + g.N() && PdIdx(g, r) == slot
    ensures forall x: nat :: row <= x < row + g.N() && PdIdx(g, x) == slot ==> x == r
  {
    var n, want := g.N(), g.N() - 1 - slot;
    var at := row % n;
    assert row == row / n * n + at;
    r := if at <= want then row + (want - at) else row + (want + n - at);
    RowsOf(row / n, at, n, r);
    forall x: nat | row <= x < row + n && PdIdx(g, x) == slot ensures x == r {
      RowsOf(row / n, at, n, x);
    }
  }

  /** a row less than n rows on from row q * n + at */
  lemma RowsOf(q: nat, at: nat, n: nat, x: nat)
    requires at < n && q * n + at <= x < q * n + at + n
    ensures x % n == if x < q * n + n then x - q * n else x - (q * n + n)
  {
    if x < q * n + n {
      DivModUnique(q, x - q * n, n);
    } else {
      MulSucc(q, n);
      DivModUnique(q + 1, x - (q * n + n), n);
    }
  }

  function ParitySlot(g: Geom, pd: nat, j: nat): nat
    requires 1 <= g.N()
  {
    (pd + j) % g.N()
  }

  function DataSlot(g: Geom, pd: nat, d: nat): nat
    requires 1 <= g.N()
  {
    (pd + g.m + d) % g.N()
  }

  /** a slot counted from the first parity slot, wrapping */
  function Rel(g: Geom, pd: nat, slot: nat): nat
    requires pd < g.N()
  {
    (slot + g.N() - pd) % g.N()
  }

  predicate IsParity(g: Geom, pd: nat, slot: nat)
    requires pd < g.N()
  {
    Rel(g, pd, slot) < g.m
  }

  function DataIndex(g: Geom, pd: nat, slot: nat): int
    requires pd < g.N()
  {
    Rel(g, pd, slot) - g.m
  }

  /** row of the coding matrix a slot belongs to: data first, then parity */
  function MatrixRow(g: Geom, pd: nat, slot: nat): nat
    requires pd < g.N()
  {
    if Rel(g, pd, slot) < g.m then g.k + Rel(g, pd, slot) else Rel(g, pd, slot) - g.m
  }

  lemma PdInRange(g: Geom, row: nat)
    requires 1 <= g.k && 1 <= g.m
    ensures PdIdx(g, row) < g.N()
  {
  }

  lemma Turned(x: nat, t: nat, n: nat)
    requires x < n && t < n
    ensures (t + x) % n < n
    ensures ((t + x) % n + n - t) % n == x
    ensures (t + (x + n - t) % n) % n == x
  {
    RotateBack(x, t, n);
    assert t + x == x + t;
  }

  /** Data index and slot are inverse, and no data slot is a parity slot. */
  lemma DataSlotIndex(g: Geom, pd: nat, d: nat)
    requires pd < g.N() && d < g.k
    ensures DataSlot(g, pd, d) < g.N()
    ensures DataIndex(g, pd, DataSlot(g, pd, d)) == d
    ensures !IsParity(g, pd, DataSlot(g, pd, d))
    ensures MatrixRow(g, pd, DataSlot(g, pd, d)) == d
  {
    Turned(g.m + d, pd, g.N());
    assert DataSlot(g, pd, d) == (pd + (g.m + d)) % g.N();
    assert Rel(g, pd, DataSlot(g, pd, d)) == g.m + d;
    hide Rel, DataSlot;
  }

  lemma ParitySlotIndex(g: Geom, pd: nat, j: nat)
    requires pd < g.N() && j < g.m
    ensures ParitySlot(g, pd, j) < g.N()
    ensures IsParity(g, pd, ParitySlot(g, pd, j))
    ensures MatrixRow(g, pd, ParitySlot(g, pd, j)) == g.k + j
  {
    Turned(j, pd, g.N());
  }

  /** Every slot of a row is one data column or one parity, and the matrix row
      names it: the two slot maps cover the members without overlap. */
  lemma SlotOfMatrixRow(g: Geom, pd: nat, slot: nat)
    requires pd < g.N() && slot < g.N()
    ensures MatrixRow(g, pd, slot) < g.N()
    ensures IsParity(g, pd, slot) ==>
              (g.k <= MatrixRow(g, pd, slot)
               && slot == ParitySlot(g, pd, MatrixRow(g, pd, slot) - g.k))
    ensures !IsParity(g, pd, slot) ==>
              (0 <= DataIndex(g, pd, slot) < g.k
               && MatrixRow(g, pd, slot) == DataIndex(g, pd, slot)
               && slot == DataSlot(g, pd, DataIndex(g, pd, slot)))
  {
    RelBack(g, pd, slot);
    var rel := Rel(g, pd, slot);
    hide Rel;
    if rel >= g.m {
      assert pd + g.m + (rel - g.m) == pd + rel;
    }
  }

  lemma RelBack(g: Geom, pd: nat, slot: nat)
    requires pd < g.N() && slot < g.N()
    ensures Rel(g, pd, slot) < g.N()
    ensures (pd + Rel(g, pd, slot)) % g.N() == slot
  {
    Turned(slot, pd, g.N());
  }

  /** a physical place: slot, first parity slot of its row, member sector */
  datatype Place = Place(slot: nat, pd: nat, sector: nat)

  /** the sector map, array sector to member sector */
  function Locate(g: Geom, r: nat): (p: Place)
    requires 1 <= g.k && 1 <= g.m && 1 <= g.chunk
    ensures p.pd < g.N() && p.slot < g.N()
  {
    var number: nat := r / g.chunk;
    var row: nat := number / g.k;
    var pd := PdIdx(g, row);
    PdInRange(g, row);
    Place(DataSlot(g, pd, number % g.k), pd, row * g.chunk + r % g.chunk)
  }

  /** where column d of a row lies, `off` sectors into the chunk */
  function PlaceOf(g: Geom, row: nat, d: nat, off: nat): Place
    requires 1 <= g.k
  {
    Place(DataSlot(g, PdIdx(g, row), d), PdIdx(g, row), row * g.chunk + off)
  }

  /** array sector of column d of a row, `off` sectors into the chunk */
  function ArraySector(g: Geom, row: nat, d: nat, off: nat): nat {
    (row * g.k + d) * g.chunk + off
  }

  /** The sector map puts column d of a row where the slot map says. */
  lemma LocateColumn(g: Geom, row: nat, d: nat, off: nat)
    requires 1 <= g.k && 1 <= g.m && 1 <= g.chunk && d < g.k && off < g.chunk
    ensures Locate(g, ArraySector(g, row, d, off)) == PlaceOf(g, row, d, off)
  {
    hide PdIdx, DataSlot;
    DivModUnique(row * g.k + d, off, g.chunk);
    DivModUnique(row, d, g.k);
  }

  /** the array sector c chunks on */
  function Ahead(g: Geom, r: nat, c: nat): nat {
    r + c * g.chunk
  }

  lemma NextColumn(g: Geom, row: nat, d: nat, c: nat, off: nat)
    ensures Ahead(g, ArraySector(g, row, d, off), c) == ArraySector(g, row, d + c, off)
  {
    assert (row * g.k + d) * g.chunk + c * g.chunk == (row * g.k + d + c) * g.chunk;
    assert row * g.k + d + c == row * g.k + (d + c);
  }
}
