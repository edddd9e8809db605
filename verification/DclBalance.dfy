/** P1 of the declustered layout: over one period every disk holds exactly the same
    number of data, parity and spare columns -- for any shuffle output and any
    geometry, not only the ones the self-test sweeps. */
module DclBalance {
  import opened Arith
  import opened Counting
  import opened DclGeometry

  // ---- one row for each (base shuffle, column) on a disk -------------------------------

  /** The row of base shuffle b in which disk d holds column c. */
  function RowFor(ge: Geom, d: nat, b: nat, c: nat): (row: nat)
    requires ge.Valid() && d < ge.N && b < ge.nbase && c < ge.N
    ensures row < ge.Period()
  {
    assert Inverse(ge.base[b], ge.ibase[b]);
    IndexInBounds(b, (d + ge.N - ge.base[b][c]) % ge.N, ge.nbase, ge.N);
    b * ge.N + (d + ge.N - ge.base[b][c]) % ge.N
  }

  lemma RowPermInPeriod(ge: Geom, row: nat)
    requires ge.Sized() && row < ge.Period()
    ensures RowPerm(ge, row) == (row / ge.N, row % ge.N)
    ensures row == RowPerm(ge, row).0 * ge.N + RowPerm(ge, row).1
  {
    DivModUnique(0, row, ge.Period());
  }

  /** In a period, a disk meets every column exactly once under each base shuffle. */
  lemma ColumnOncePerShuffle(ge: Geom, d: nat, row: nat, b: nat, c: nat)
    requires ge.Valid() && d < ge.N && b < ge.nbase && c < ge.N && row < ge.Period()
    ensures row == RowFor(ge, d, b, c) <==> RowPerm(ge, row).0 == b && Lcol(ge, row, d) == c
  {
    assert Inverse(ge.base[b], ge.ibase[b]);
    RowPermInPeriod(ge, row);
    var x, t := ge.base[b][c], (d + ge.N - ge.base[b][c]) % ge.N;
    // (d - x) is the rotation that brings x to d
    RotateBack(d, x, ge.N);
    assert (t + x) % ge.N == d;
    if row == RowFor(ge, d, b, c) {
      DivModUnique(b, t, ge.N);
      RotateBack(x, t, ge.N);
    }
    if RowPerm(ge, row).0 == b && Lcol(ge, row, d) == c {
      var t' := RowPerm(ge, row).1;
      assert ge.base[b][ge.ibase[b][(d + ge.N - t') % ge.N]] == (d + ge.N - t') % ge.N;
      RotateBack(d, t', ge.N);
      RotateBack(t', x, ge.N);
      assert (x + t') % ge.N == d;
    }
  }

  // ---- exact balance -----------------------------------------------------------------

  datatype Kind = DataKind | ParityKind | SpareKind

  function KindOf(ge: Geom, lcol: nat): Kind
    requires ge.Sized()
  {
    match RoleOf(ge, lcol)
    case Data(_, _) => DataKind
    case Parity(_, _) => ParityKind
    case Spare(_) => SpareKind
  }

  /** the rows of one period in which disk d holds a column of this kind */
  ghost function RowsHolding(ge: Geom, d: nat, kind: Kind): set<nat>
    requires ge.Valid() && d < ge.N
  {
    set row | row in Below(ge.Period()) && KindOf(ge, Lcol(ge, row, d)) == kind
  }

  ghost function Columns(ge: Geom, kind: Kind): set<nat>
    requires ge.Sized()
  {
    set c | c in Below(ge.N) && KindOf(ge, c) == kind
  }

  lemma RowPairs(ge: Geom, d: nat, kind: Kind, row: nat)
    requires ge.Valid() && d < ge.N && row in RowsHolding(ge, d, kind)
    ensures var (b, c) := (RowPerm(ge, row).0, Lcol(ge, row, d));
      b < ge.nbase && c in Columns(ge, kind) && RowFor(ge, d, b, c) == row
  {
    RowBijection(ge, row, d);
    ColumnOncePerShuffle(ge, d, row, RowPerm(ge, row).0, Lcol(ge, row, d));
  }

  lemma ColumnPairs(ge: Geom, d: nat, kind: Kind, b: nat, c: nat)
    requires ge.Valid() && d < ge.N && b < ge.nbase && c in Columns(ge, kind)
    ensures var row := RowFor(ge, d, b, c);
      row in RowsHolding(ge, d, kind) && RowPerm(ge, row).0 == b && Lcol(ge, row, d) == c
  {
    ColumnOncePerShuffle(ge, d, RowFor(ge, d, b, c), b, c);
  }

  lemma RowsPairColumns(ge: Geom, d: nat, kind: Kind)
    requires ge.Valid() && d < ge.N
    ensures |RowsHolding(ge, d, kind)| == ge.nbase * |Columns(ge, kind)|
  {
    var A, B := RowsHolding(ge, d, kind), Product(ge.nbase, Columns(ge, kind));
    var f: nat -> (nat, nat) := (row: nat) => (RowPerm(ge, row).0, Lcol(ge, row, d));
    var g: ((nat, nat)) -> nat :=
      (p: (nat, nat)) => if p.0 < ge.nbase && p.1 < ge.N then RowFor(ge, d, p.0, p.1) else 0;
    hide KindOf, Lcol, RowFor, RowPerm, RowsHolding, Columns, Product;
    assert forall row :: row in A ==> f(row) in B && g(f(row)) == row by {
      forall row | row in A ensures f(row) in B && g(f(row)) == row {
        RowPairs(ge, d, kind, row);
        InProduct(ge.nbase, Columns(ge, kind), f(row));
      }
    }
    assert forall p :: p in B ==> g(p) in A && f(g(p)) == p by {
      forall p | p in B ensures g(p) in A && f(g(p)) == p {
        InProduct(ge.nbase, Columns(ge, kind), p);
        ColumnPairs(ge, d, kind, p.0, p.1);
      }
    }
    PairedOff<nat, (nat, nat)>(A, B, f, g);
    ProductSize(ge.nbase, Columns(ge, kind));
  }

  lemma RowsOfKind(ge: Geom, d: nat, kind: Kind, n: nat)
    requires ge.Valid() && d < ge.N && |Columns(ge, kind)| == n
    ensures |RowsHolding(ge, d, kind)| == ge.nbase * n
  {
    RowsPairColumns(ge, d, kind);
  }

  /** (group, slot - lo) of a column, and back */
  function SlotPair(c: nat, g: nat, lo: nat): (nat, nat)
    requires 0 < g
  {
    var (q, r) := DivMod(c, g);
    (q, if lo <= r then r - lo else 0)
  }

  function PairColumn(p: (nat, nat), g: nat, lo: nat): nat {
    p.0 * g + (lo + p.1)
  }

  lemma SlotPairBack(c: nat, g: nat, lo: nat)
    requires 0 < g && lo <= DivMod(c, g).1
    ensures PairColumn(SlotPair(c, g, lo), g, lo) == c
  {
    DivModIs(c, g);
  }

  lemma PairColumnBack(p: (nat, nat), g: nat, lo: nat)
    requires lo + p.1 < g
    ensures DivMod(PairColumn(p, g, lo), g) == (p.0, lo + p.1)
  {
    DivModUnique(p.0, lo + p.1, g);
    DivModIs(PairColumn(p, g, lo), g);
  }

  /** slots [lo, hi) of the n groups pair off with n * (hi - lo) numbers */
  lemma SlotsSize(A: set<nat>, n: nat, g: nat, lo: nat, hi: nat)
    requires 0 < g && lo <= hi <= g
    requires forall c: nat :: c in A <==> DivMod(c, g).0 < n && lo <= DivMod(c, g).1 < hi
    ensures |A| == n * (hi - lo)
  {
    var B := Product(n, Below(hi - lo));
    forall c | c in A
      ensures SlotPair(c, g, lo) in B && PairColumn(SlotPair(c, g, lo), g, lo) == c
    {
      SlotPairBack(c, g, lo);
    }
    forall p | p in B
      ensures PairColumn(p, g, lo) in A && SlotPair(PairColumn(p, g, lo), g, lo) == p
    {
      PairColumnBack(p, g, lo);
    }
    PairedOff<nat, (nat, nat)>(A, B, c => SlotPair(c, g, lo), p => PairColumn(p, g, lo));
    ProductSize(n, Below(hi - lo));
  }

  lemma GroupColumnsOf(ge: Geom)
    requires ge.Sized()
    ensures |Columns(ge, DataKind)| == ge.ngroups * ge.K()
    ensures |Columns(ge, ParityKind)| == ge.ngroups * ge.m
  {
    forall c: nat {
      KindOfColumn(ge, c);
    }
    SlotsSize(Columns(ge, DataKind), ge.ngroups, ge.g, 0, ge.K());
    SlotsSize(Columns(ge, ParityKind), ge.ngroups, ge.g, ge.K(), ge.g);
  }

  lemma SpareColumns(ge: Geom)
    requires ge.Sized()
    ensures |Columns(ge, SpareKind)| == ge.s
  {
    forall c: nat ensures c in Columns(ge, SpareKind) <==> c in Range(ge.GCols(), ge.N) {
      KindOfColumn(ge, c);
    }
    assert Columns(ge, SpareKind) == Range(ge.GCols(), ge.N);
  }

  lemma KindOfColumn(ge: Geom, c: nat)
    requires ge.Sized()
    ensures var (q, r) := DivMod(c, ge.g);
      && (c in Columns(ge, DataKind) <==> q < ge.ngroups && r < ge.K())
      && (c in Columns(ge, ParityKind) <==> q < ge.ngroups && ge.K() <= r < ge.g)
      && (c in Columns(ge, SpareKind) <==> ge.GCols() <= c < ge.N)
  {
    DivModIs(c, ge.g);
    QuotientBound(c, ge.ngroups, ge.g);
  }

  /** P1: the capacity balance is exact on every disk. */
  lemma ExactBalance(ge: Geom, d: nat)
    requires ge.Valid() && d < ge.N
    ensures |RowsHolding(ge, d, DataKind)| == ge.nbase * (ge.ngroups * ge.K())
    ensures |RowsHolding(ge, d, ParityKind)| == ge.nbase * (ge.ngroups * ge.m)
    ensures |RowsHolding(ge, d, SpareKind)| == ge.nbase * ge.s
  {
    GroupColumnsOf(ge);
    SpareColumns(ge);
    RowsOfKind(ge, d, DataKind, ge.ngroups * ge.K());
    RowsOfKind(ge, d, ParityKind, ge.ngroups * ge.m);
    RowsOfKind(ge, d, SpareKind, ge.s);
  }
}
