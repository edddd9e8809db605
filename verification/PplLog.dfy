/** Writing the partial parity log, km/raid_km-ppl.c: a stripe about to be
    written is appended to the last entry of the open unit when it continues
    that entry's matrix of blocks, and starts a new entry otherwise. A sector
    stands for the byte at one offset in it: every code here acts on each
    offset alone. Sizes are in bytes and places in sectors, as in the source. */
module PplLog {
  import opened Arith
  import opened Counting
  import opened PplGeometry

  const PAGE_SIZE: nat := 4096
  /** entries a header has room for */
  const MAX_ENTRIES: nat := 148

  /** A stripe page about to be written: columns [first, first + count) of
      `row`, `off` sectors into their chunks. want marks the slots with a write
      pending, pp holds the m partial parity pages one after the other. */
  datatype Stripe = Stripe(row: nat, off: nat, first: nat, count: nat, want: seq<bool>,
                           full: bool, pp: seq<bv8>)

  /** checked is what the entry's checksum covers: the seal is ideal */
  datatype Entry = Entry(dataSector: nat, dataSize: nat, ppSize: nat, parityDisk: nat, checked: seq<bv8>)

  datatype IoUnit = IoUnit(entries: seq<Entry>, ppSize: nat, stripes: seq<Stripe>)

  /** what the stripe cache hands the log */
  ghost predicate StripeOk(g: Geom, sh: Stripe) {
    && g.Valid()
    && sh.off < g.chunk
    && sh.off % PAGE == 0
    && 1 <= sh.count
    && sh.first + sh.count <= g.k
    && |sh.want| == g.N()
    && (forall d: nat :: d < g.k ==>
          (sh.want[DataSlot(g, PdIdx(g, sh.row), d)] <==> sh.first <= d < sh.first + sh.count))
    && (sh.full ==> sh.count == g.k)
    && |sh.pp| == g.m * PAGE
  }

  function SectorOf(g: Geom, sh: Stripe): nat { sh.row * g.chunk + sh.off }

  function DataSector(g: Geom, sh: Stripe): nat { ArraySector(g, sh.row, sh.first, sh.off) }

  function FreshEntry(g: Geom, dataSector: nat, parityDisk: nat): Entry {
    Entry(dataSector, 0, 0, parityDisk, [])
  }

  /** the test that lets a stripe join the last entry */
  predicate CanAppend(g: Geom, io: IoUnit, sh: Stripe, dataSector: nat, dataDisks: nat)
    requires 1 <= g.chunk
  {
    && io.entries != []
    && io.stripes != []
    && var last := io.entries[|io.entries| - 1];
       && SectorOf(g, sh) == SectorOf(g, io.stripes[|io.stripes| - 1]) + PAGE
       && Shr(dataSector, Ilog2(g.chunk)) == Shr(last.dataSector, Ilog2(g.chunk))
       && (dataSector - last.dataSector) * dataDisks == last.dataSize / 512
  }

  function Extended(g: Geom, e: Entry, sh: Stripe, dataDisks: nat): Entry {
    var wider := e.(dataSize := e.dataSize + dataDisks * PAGE_SIZE);
    if sh.full then wider
    else wider.(ppSize := e.ppSize + g.m * PAGE_SIZE, checked := e.checked + sh.pp)
  }

  /** one stripe into one unit */
  function Logged(g: Geom, io: IoUnit, sh: Stripe): IoUnit
    requires 1 <= g.chunk && 1 <= g.k
  {
    var ds := DataSector(g, sh);
    var n := |io.entries|;
    var entries :=
      if CanAppend(g, io, sh, ds, sh.count)
      then io.entries[n - 1 := Extended(g, io.entries[n - 1], sh, sh.count)]
      else io.entries + [Extended(g, FreshEntry(g, ds, PdIdx(g, sh.row)), sh, sh.count)];
    IoUnit(entries, io.ppSize + (if sh.full then 0 else g.m * PAGE_SIZE), io.stripes + [sh])
  }

  predicate IsFull(io: IoUnit, space: nat) {
    io.ppSize == space || |io.entries| == MAX_ENTRIES
  }

  const EMPTY: IoUnit := IoUnit([], 0, [])

  // ---- what an entry describes ----

  function Partials(rows: seq<Stripe>): nat {
    if rows == [] then 0
    else Partials(rows[..|rows| - 1]) + (if rows[|rows| - 1].full then 0 else 1)
  }

  /** the partial parity the rows put in the log, in order */
  function PpOf(rows: seq<Stripe>): seq<bv8> {
    if rows == [] then []
    else PpOf(rows[..|rows| - 1]) + (if rows[|rows| - 1].full then [] else rows[|rows| - 1].pp)
  }

  /** sh is row b of the matrix that starts at `top` */
  predicate InMatrix(top: Stripe, sh: Stripe, b: nat) {
    && sh.row == top.row
    && sh.first == top.first
    && sh.count == top.count
    && sh.off == top.off + b * PAGE
  }

  /** e describes exactly the matrix `rows` */
  ghost predicate Describes(g: Geom, e: Entry, rows: seq<Stripe>) {
    && g.Valid()
    && rows != []
    && (forall b: nat :: b < |rows| ==> StripeOk(g, rows[b]) && InMatrix(rows[0], rows[b], b))
    && e.dataSector == DataSector(g, rows[0])
    && e.dataSize == |rows| * rows[0].count * PAGE_SIZE
    && e.ppSize == Partials(rows) * g.m * PAGE_SIZE
    && e.parityDisk == PdIdx(g, rows[0].row)
    && e.checked == PpOf(rows)
  }

  function Join(groups: seq<seq<Stripe>>): seq<Stripe> {
    if groups == [] then [] else Join(groups[..|groups| - 1]) + groups[|groups| - 1]
  }

  /** the unit's entries cut its stripes into matrices */
  ghost predicate UnitOk(g: Geom, io: IoUnit, groups: seq<seq<Stripe>>) {
    && g.Valid()
    && |groups| == |io.entries|
    && (forall i: nat :: i < |groups| ==> Describes(g, io.entries[i], groups[i]))
    && io.stripes == Join(groups)
    && io.ppSize == Partials(io.stripes) * g.m * PAGE_SIZE
  }

  lemma SectorDividesChunk(g: Geom, sh: Stripe)
    requires StripeOk(g, sh)
    ensures Shr(DataSector(g, sh), Ilog2(g.chunk)) == sh.row * g.k + sh.first
  {
    ShiftDivides(DataSector(g, sh), g.chunk);
    DivModUnique(sh.row * g.k + sh.first, sh.off, g.chunk);
  }

  lemma SameChunk(g: Geom, a: Stripe, b: Stripe)
    requires StripeOk(g, a) && StripeOk(g, b)
    ensures Shr(DataSector(g, a), Ilog2(g.chunk)) == Shr(DataSector(g, b), Ilog2(g.chunk))
       <==> a.row == b.row && a.first == b.first
  {
    SectorDividesChunk(g, a);
    SectorDividesChunk(g, b);
    DivModUnique(a.row, a.first, g.k);
    DivModUnique(b.row, b.first, g.k);
  }

  /** the size test, once row and first column agree */
  lemma SameWidth(n: nat, count: nat, count': nat)
    requires 1 <= n
    ensures (n * PAGE) * count' == (n * count * PAGE_SIZE) / 512 <==> count' == count
  {
    assert n * count * PAGE_SIZE == (n * count * PAGE) * 512;
    DivModUnique(n * count * PAGE, 0, 512);
    assert (n * PAGE) * count' == PAGE * (n * count');
    if count' < count {
      MulMono(count' + 1, count, n);
      assert n * count >= n * count' + n;
    } else if count' > count {
      MulMono(count + 1, count', n);
      assert n * count' >= n * count + n;
    }
  }

  lemma LastOfJoin(groups: seq<seq<Stripe>>)
    requires groups != [] && groups[|groups| - 1] != []
    ensures Join(groups) != []
    ensures var rows := groups[|groups| - 1]; Join(groups)[|Join(groups)| - 1] == rows[|rows| - 1]
  {
  }

  /** The append test is exact: it passes exactly when the stripe is the next
      row of the last entry's matrix. */
  lemma AppendsExactly(g: Geom, io: IoUnit, groups: seq<seq<Stripe>>, sh: Stripe)
    requires UnitOk(g, io, groups) && StripeOk(g, sh)
    ensures CanAppend(g, io, sh, DataSector(g, sh), sh.count)
       <==> (groups != []
             && InMatrix(groups[|groups| - 1][0], sh, |groups[|groups| - 1]|))
  {
    if groups != [] {
      var rows := groups[|groups| - 1];
      var e := io.entries[|groups| - 1];
      assert Describes(g, e, rows);
      LastOfJoin(groups);
      var top, tail, n := rows[0], rows[|rows| - 1], |rows|;
      assert InMatrix(top, tail, n - 1);
      SameChunk(g, sh, top);
      SameWidth(n, top.count, sh.count);
      if sh.row == top.row && sh.first == top.first {
        assert SectorOf(g, sh) == SectorOf(g, tail) + PAGE <==> sh.off == top.off + n * PAGE;
        assert DataSector(g, sh) - DataSector(g, top) == sh.off - top.off;
      }
    } else {
      assert io.stripes == [];
    }
  }

  lemma PartialsPush(rows: seq<Stripe>, sh: Stripe)
    ensures Partials(rows + [sh]) == Partials(rows) + (if sh.full then 0 else 1)
    ensures PpOf(rows + [sh]) == PpOf(rows) + (if sh.full then [] else sh.pp)
  {
    assert (rows + [sh])[..|rows|] == rows;
  }

  lemma DescribesNew(g: Geom, sh: Stripe)
    requires StripeOk(g, sh)
    ensures Describes(g, Extended(g, FreshEntry(g, DataSector(g, sh), PdIdx(g, sh.row)), sh, sh.count), [sh])
  {
    PartialsPush([], sh);
    assert [] + [sh] == [sh];
    assert Partials([]) == 0 && PpOf([]) == [];
  }

  lemma DescribesMore(g: Geom, e: Entry, rows: seq<Stripe>, sh: Stripe)
    requires Describes(g, e, rows) && StripeOk(g, sh)
    requires InMatrix(rows[0], sh, |rows|)
    ensures Describes(g, Extended(g, e, sh, sh.count), rows + [sh])
  {
    PartialsPush(rows, sh);
    DescribesRows(g, e, rows, sh);
    SizeMore(|rows|, rows[0].count, PAGE_SIZE);
    SizeMore(Partials(rows), g.m, PAGE_SIZE);
    hide StripeOk, InMatrix, Partials, PpOf, DataSector;
  }

  lemma SizeMore(n: nat, a: nat, b: nat)
    ensures (n + 1) * a * b == n * a * b + a * b
  {
    assert (n + 1) * a == n * a + a;
  }

  lemma DescribesRows(g: Geom, e: Entry, rows: seq<Stripe>, sh: Stripe)
    requires Describes(g, e, rows) && StripeOk(g, sh)
    requires InMatrix(rows[0], sh, |rows|)
    ensures var all := rows + [sh];
      forall b: nat :: b < |all| ==> StripeOk(g, all[b]) && InMatrix(all[0], all[b], b)
  {
    var all := rows + [sh];
    hide StripeOk, InMatrix;
    assert all[0] == rows[0];
    forall b: nat | b < |all|
      ensures StripeOk(g, all[b]) && InMatrix(all[0], all[b], b)
    {
      assert all[b] == if b < |rows| then rows[b] else sh;
    }
  }

  /** the grouping after one more stripe */
  ghost function Regroup(g: Geom, io: IoUnit, groups: seq<seq<Stripe>>, sh: Stripe): seq<seq<Stripe>>
    requires 1 <= g.chunk
  {
    var n := |groups|;
    if n > 0 && CanAppend(g, io, sh, DataSector(g, sh), sh.count)
    then groups[..n - 1] + [groups[n - 1] + [sh]]
    else groups + [[sh]]
  }

  lemma JoinPush(groups: seq<seq<Stripe>>, rows: seq<Stripe>)
    ensures Join(groups + [rows]) == Join(groups) + rows
  {
    assert (groups + [rows])[..|groups|] == groups;
  }

  lemma RegroupJoins(g: Geom, io: IoUnit, groups: seq<seq<Stripe>>, sh: Stripe)
    requires 1 <= g.chunk
    ensures Join(Regroup(g, io, groups, sh)) == Join(groups) + [sh]
  {
    var n := |groups|;
    JoinPush(groups, [sh]);
    if n > 0 {
      JoinPush(groups[..n - 1], groups[n - 1] + [sh]);
      JoinPush(groups[..n - 1], groups[n - 1]);
      assert groups[..n - 1] + [groups[n - 1]] == groups;
    }
  }

  /** the entries' matrices, one by one */
  ghost predicate Described(g: Geom, entries: seq<Entry>, groups: seq<seq<Stripe>>) {
    |groups| == |entries| && forall i: nat :: i < |groups| ==> Describes(g, entries[i], groups[i])
  }

  lemma LoggedAppends(g: Geom, entries: seq<Entry>, groups: seq<seq<Stripe>>, e: Entry, rows: seq<Stripe>)
    requires groups != [] && Described(g, entries, groups) && Describes(g, e, rows)
    ensures Described(g, entries[|entries| - 1 := e], groups[..|groups| - 1] + [rows])
  {
    hide Describes;
  }

  lemma LoggedOpens(g: Geom, entries: seq<Entry>, groups: seq<seq<Stripe>>, e: Entry, rows: seq<Stripe>)
    requires Described(g, entries, groups) && Describes(g, e, rows)
    ensures Described(g, entries + [e], groups + [rows])
  {
    hide Describes;
  }

  /** the entries after the stripe, in either case */
  lemma LoggedEntries(g: Geom, io: IoUnit, groups: seq<seq<Stripe>>, sh: Stripe)
    requires UnitOk(g, io, groups) && StripeOk(g, sh)
    ensures Described(g, Logged(g, io, sh).entries, Regroup(g, io, groups, sh))
  {
    AppendsExactly(g, io, groups, sh);
    hide StripeOk, CanAppend, Describes, Extended, InMatrix, FreshEntry, DataSector, PdIdx, Join;
    var n := |groups|;
    if CanAppend(g, io, sh, DataSector(g, sh), sh.count) {
      assert Describes(g, io.entries[n - 1], groups[n - 1]);
      DescribesMore(g, io.entries[n - 1], groups[n - 1], sh);
      LoggedAppends(g, io.entries, groups, Extended(g, io.entries[n - 1], sh, sh.count), groups[n - 1] + [sh]);
    } else {
      DescribesNew(g, sh);
      var e := FreshEntry(g, DataSector(g, sh), PdIdx(g, sh.row));
      LoggedOpens(g, io.entries, groups, Extended(g, e, sh, sh.count), [sh]);
    }
  }

  lemma LoggedPp(g: Geom, io: IoUnit, sh: Stripe)
    requires 1 <= g.chunk && 1 <= g.k && io.ppSize == Partials(io.stripes) * g.m * PAGE_SIZE
    ensures Logged(g, io, sh).stripes == io.stripes + [sh]
    ensures Logged(g, io, sh).ppSize == Partials(io.stripes + [sh]) * g.m * PAGE_SIZE
  {
    PartialsPush(io.stripes, sh);
    SizeMore(Partials(io.stripes), g.m, PAGE_SIZE);
    hide Partials, CanAppend, Extended, FreshEntry, DataSector, PdIdx;
  }

  /** Logging a stripe keeps every entry a matrix of consecutive pages over
      one range of columns, and the entries together cover every stripe once,
      in order. */
  lemma LoggedKeeps(g: Geom, io: IoUnit, groups: seq<seq<Stripe>>, sh: Stripe)
    requires UnitOk(g, io, groups) && StripeOk(g, sh)
    ensures UnitOk(g, Logged(g, io, sh), Regroup(g, io, groups, sh))
  {
    LoggedEntries(g, io, groups, sh);
    RegroupJoins(g, io, groups, sh);
    LoggedPp(g, io, sh);
    hide StripeOk, Describes, Logged, Regroup, Join, Partials;
  }

  // ---- the log of one member ----

  /** columns of the stripe with a write pending in a slot below i */
  ghost function SeenBelow(g: Geom, sh: Stripe, i: nat): set<nat>
    requires StripeOk(g, sh)
  {
    set d | d in Range(sh.first, sh.first + sh.count) && DataSlot(g, PdIdx(g, sh.row), d) < i
  }

  lemma SeenAll(g: Geom, sh: Stripe)
    requires StripeOk(g, sh)
    ensures SeenBelow(g, sh, g.N()) == Range(sh.first, sh.first + sh.count)
  {
    PdInRange(g, sh.row);
    forall d | d in Range(sh.first, sh.first + sh.count)
      ensures d in SeenBelow(g, sh, g.N())
    {
      DataSlotIndex(g, PdIdx(g, sh.row), d);
    }
  }

  lemma SeenStep(g: Geom, sh: Stripe, i: nat)
    requires StripeOk(g, sh) && i < g.N()
    ensures 1 <= g.k && PdIdx(g, sh.row) < g.N() && |sh.want| == g.N()
    ensures !IsParity(g, PdIdx(g, sh.row), i) && sh.want[i]
        ==> (var d := DataIndex(g, PdIdx(g, sh.row), i);
             0 <= d < g.k
             && d !in SeenBelow(g, sh, i)
             && SeenBelow(g, sh, i + 1) == SeenBelow(g, sh, i) + {d}
             && |SeenBelow(g, sh, i + 1)| == |SeenBelow(g, sh, i)| + 1)
    ensures !(!IsParity(g, PdIdx(g, sh.row), i) && sh.want[i])
        ==> SeenBelow(g, sh, i + 1) == SeenBelow(g, sh, i)
  {
    hide *;
    SlotColumn(g, sh, i);
    var pd := PdIdx(g, sh.row);
    if !IsParity(g, pd, i) && sh.want[i] {
      SeenGrows(g, sh, i, DataIndex(g, pd, i));
    } else {
      SeenSame(g, sh, i);
    }
  }

  lemma SeenGrows(g: Geom, sh: Stripe, i: nat, d: nat)
    requires StripeOk(g, sh) && sh.first <= d < sh.first + sh.count && sh.first + sh.count <= g.k
    requires forall x: nat {:trigger DataSlot(g, PdIdx(g, sh.row), x)} :: x < g.k ==>
               (DataSlot(g, PdIdx(g, sh.row), x) == i <==> x == d)
    ensures d !in SeenBelow(g, sh, i)
    ensures SeenBelow(g, sh, i + 1) == SeenBelow(g, sh, i) + {d}
    ensures |SeenBelow(g, sh, i + 1)| == |SeenBelow(g, sh, i)| + 1
  {
    hide StripeOk, DataSlot, PdIdx;
    assert SeenBelow(g, sh, i + 1) == SeenBelow(g, sh, i) + {d};
  }

  lemma SeenSame(g: Geom, sh: Stripe, i: nat)
    requires StripeOk(g, sh) && sh.first + sh.count <= g.k
    requires forall x: nat {:trigger DataSlot(g, PdIdx(g, sh.row), x)} ::
               sh.first <= x < sh.first + sh.count ==> DataSlot(g, PdIdx(g, sh.row), x) != i
    ensures SeenBelow(g, sh, i + 1) == SeenBelow(g, sh, i)
  {
    hide StripeOk, DataSlot, PdIdx;
  }

  /** the column in slot i, if it holds one: the only one with this slot, and
      written exactly when the slot wants it */
  lemma SlotColumn(g: Geom, sh: Stripe, i: nat)
    requires StripeOk(g, sh) && i < g.N()
    ensures 1 <= g.k && PdIdx(g, sh.row) < g.N() && |sh.want| == g.N()
    ensures (forall d: nat {:trigger DataSlot(g, PdIdx(g, sh.row), d)} :: d < g.k ==>
               (DataSlot(g, PdIdx(g, sh.row), d) == i
                <==> !IsParity(g, PdIdx(g, sh.row), i) && DataIndex(g, PdIdx(g, sh.row), i) == d))
    ensures sh.first + sh.count <= g.k
    ensures !IsParity(g, PdIdx(g, sh.row), i) ==>
              (0 <= DataIndex(g, PdIdx(g, sh.row), i) < g.k
               && (sh.want[i] <==> sh.first <= DataIndex(g, PdIdx(g, sh.row), i) < sh.first + sh.count))
  {
    var pd := PdIdx(g, sh.row);
    PdInRange(g, sh.row);
    SlotOfMatrixRow(g, pd, i);
    forall d: nat | d < g.k
      ensures DataSlot(g, pd, d) == i ==> !IsParity(g, pd, i) && DataIndex(g, pd, i) == d
    {
      DataSlotIndex(g, pd, d);
    }
    hide IsParity, DataIndex, Rel, MatrixRow;
  }

  lemma FirstIsLeast(g: Geom, sh: Stripe, d: nat)
    requires sh.first <= d
    ensures ArraySector(g, sh.row, sh.first, sh.off) <= ArraySector(g, sh.row, d, sh.off)
  {
    MulMono(sh.row * g.k + sh.first, sh.row * g.k + d, g.chunk);
  }

  /** the scan of the slots below i: how many columns to write, and the least
      array sector among them */
  ghost predicate Scanned(g: Geom, sh: Stripe, i: nat, dataSector: nat, dataDisks: nat)
    requires StripeOk(g, sh)
  {
    && dataDisks == |SeenBelow(g, sh, i)|
    && (dataDisks > 0 ==>
          exists d :: d in SeenBelow(g, sh, i) && dataSector == ArraySector(g, sh.row, d, sh.off))
    && (forall d :: d in SeenBelow(g, sh, i) ==> dataSector <= ArraySector(g, sh.row, d, sh.off))
  }

  lemma ScanStart(g: Geom, sh: Stripe)
    requires StripeOk(g, sh)
    ensures Scanned(g, sh, 0, 0, 0)
    ensures |sh.want| == g.N() && 1 <= g.k && PdIdx(g, sh.row) < g.N()
  {
    PdInRange(g, sh.row);
    assert SeenBelow(g, sh, 0) == {};
  }

  lemma ScanStep(g: Geom, sh: Stripe, i: nat, dataSector: nat, dataDisks: nat)
    requires StripeOk(g, sh) && i < g.N() && Scanned(g, sh, i, dataSector, dataDisks)
    ensures PdIdx(g, sh.row) < g.N()
    ensures !(!IsParity(g, PdIdx(g, sh.row), i) && sh.want[i]) ==> Scanned(g, sh, i + 1, dataSector, dataDisks)
    ensures !IsParity(g, PdIdx(g, sh.row), i) && sh.want[i]
        ==> (var d := DataIndex(g, PdIdx(g, sh.row), i);
             0 <= d
             && var sector := ArraySector(g, sh.row, d, sh.off);
                Scanned(g, sh, i + 1, if dataDisks == 0 || sector < dataSector then sector else dataSector,
                        dataDisks + 1))
  {
    hide *;
    SeenStep(g, sh, i);
    if !IsParity(g, PdIdx(g, sh.row), i) && sh.want[i] {
      ScanTakes(g, sh, i, dataSector, dataDisks, DataIndex(g, PdIdx(g, sh.row), i));
    } else {
      ScanPasses(g, sh, i, dataSector, dataDisks);
    }
  }

  lemma ScanPasses(g: Geom, sh: Stripe, i: nat, dataSector: nat, dataDisks: nat)
    requires StripeOk(g, sh) && Scanned(g, sh, i, dataSector, dataDisks)
    requires SeenBelow(g, sh, i + 1) == SeenBelow(g, sh, i)
    ensures Scanned(g, sh, i + 1, dataSector, dataDisks)
  {
    hide SeenBelow, StripeOk, ArraySector;
  }

  lemma ScanTakes(g: Geom, sh: Stripe, i: nat, dataSector: nat, dataDisks: nat, d: nat)
    requires StripeOk(g, sh) && Scanned(g, sh, i, dataSector, dataDisks)
    requires SeenBelow(g, sh, i + 1) == SeenBelow(g, sh, i) + {d}
    requires |SeenBelow(g, sh, i + 1)| == |SeenBelow(g, sh, i)| + 1
    ensures var sector := ArraySector(g, sh.row, d, sh.off);
      Scanned(g, sh, i + 1, if dataDisks == 0 || sector < dataSector then sector else dataSector, dataDisks + 1)
  {
    hide SeenBelow, StripeOk, ArraySector;
    assert d in SeenBelow(g, sh, i + 1);
    if dataDisks > 0 {
      var least :| least in SeenBelow(g, sh, i) && dataSector == ArraySector(g, sh.row, least, sh.off);
      assert least in SeenBelow(g, sh, i + 1);
    }
  }

  lemma ScanEnd(g: Geom, sh: Stripe, dataSector: nat, dataDisks: nat)
    requires StripeOk(g, sh) && Scanned(g, sh, g.N(), dataSector, dataDisks)
    ensures dataSector == DataSector(g, sh) && dataDisks == sh.count
  {
    SeenAll(g, sh);
    assert sh.first in Range(sh.first, sh.first + sh.count);
    var least :| least in SeenBelow(g, sh, g.N()) && dataSector == ArraySector(g, sh.row, least, sh.off);
    FirstIsLeast(g, sh, least);
  }

  /** The partial parity log of one member: the units not yet finished, the
      open one last. */
  class Log {
    const g: Geom
    const space: nat
    var units: seq<IoUnit>
    var open: bool

    ghost predicate Valid()
      reads this
    {
      g.Valid() && (open ==> units != [])
    }

    constructor (g: Geom, space: nat)
      requires g.Valid()
      ensures Valid() && this.g == g && this.space == space && units == []
    {
      this.g, this.space, units, open := g, space, [], false;
    }

    /** the data range of a stripe: the loop over its slots finds the least
        sector with a write pending and how many there are */
    method DataRange(sh: Stripe) returns (dataSector: nat, dataDisks: nat)
      requires Valid() && StripeOk(g, sh)
      ensures dataSector == DataSector(g, sh) && dataDisks == sh.count
    {
      hide *;
      ScanStart(g, sh);
      var pd := PdIdx(g, sh.row);
      dataSector, dataDisks := 0, 0;
      for i := 0 to g.N()
        invariant Scanned(g, sh, i, dataSector, dataDisks)
      {
        ScanStep(g, sh, i, dataSector, dataDisks);
        if !IsParity(g, pd, i) && sh.want[i] {
          var sector := ArraySector(g, sh.row, DataIndex(g, pd, i), sh.off);
          if dataDisks == 0 || sector < dataSector {
            dataSector := sector;
          }
          dataDisks := dataDisks + 1;
        }
      }
      ScanEnd(g, sh, dataSector, dataDisks);
    }

    /** the entry grows by one row, and by its m pages of partial parity unless
        the whole row is written */
    method Extend(e: Entry, sh: Stripe, dataDisks: nat) returns (out: Entry)
      requires |sh.pp| == g.m * PAGE
      ensures out == Extended(g, e, sh, dataDisks)
    {
      out := e.(dataSize := e.dataSize + dataDisks * PAGE_SIZE);
      if !sh.full {
        out := out.(ppSize := e.ppSize + g.m * PAGE_SIZE);
        ghost var grown := out;
        for j := 0 to g.m
          invariant j * PAGE <= |sh.pp|
          invariant out == grown.(checked := e.checked + sh.pp[..j * PAGE])
        {
          MulMono(j + 1, g.m, PAGE);
          assert sh.pp[..j * PAGE] + sh.pp[j * PAGE..(j + 1) * PAGE] == sh.pp[..(j + 1) * PAGE];
          out := out.(checked := out.checked + sh.pp[j * PAGE..(j + 1) * PAGE]);
        }
        assert sh.pp[..g.m * PAGE] == sh.pp;
      }
    }

    /** ppl_log_stripe: into the open unit, or a new one when it is full */
    method LogStripe(sh: Stripe)
      requires Valid() && StripeOk(g, sh)
      modifies this`units, this`open
      ensures Valid() && open
      ensures (var n := |old(units)|;
               units == if old(open) && !IsFull(old(units)[n - 1], space)
                        then old(units)[n - 1 := Logged(g, old(units)[n - 1], sh)]
                        else old(units) + [Logged(g, EMPTY, sh)])
    {
      if !open || IsFull(units[|units| - 1], space) {
        units := units + [EMPTY];
        open := true;
      }
      var io := units[|units| - 1];
      var dataSector, dataDisks := DataRange(sh);
      var entries := io.entries;
      if !CanAppend(g, io, sh, dataSector, dataDisks) {
        entries := entries + [FreshEntry(g, dataSector, PdIdx(g, sh.row))];
      }
      var e := Extend(entries[|entries| - 1], sh, dataDisks);
      entries := entries[|entries| - 1 := e];
      var ppSize := io.ppSize;
      if !sh.full {
        ppSize := ppSize + g.m * PAGE_SIZE;
      }
      assert IoUnit(entries, ppSize, io.stripes + [sh]) == Logged(g, io, sh);
      units := units[|units| - 1 := IoUnit(entries, ppSize, io.stripes + [sh])];
    }
  }

  // ---- room ----

  lemma RoomForOne(q: nat, page: nat, space: nat)
    requires 1 <= page && space % page == 0 && q * page < space
    ensures (q + 1) * page <= space
  {
    var room := space / page;
    assert space == room * page;
    if q >= room {
      MulMono(room, q, page);
    } else {
      MulMono(q + 1, room, page);
    }
  }

  /** Partial parity never outgrows the entry space when the m pages of a
      stripe divide it. The source stops at equality, so this is needed. */
  lemma SpaceKept(g: Geom, io: IoUnit, groups: seq<seq<Stripe>>, sh: Stripe, space: nat)
    requires UnitOk(g, io, groups) && StripeOk(g, sh)
    requires space % (g.m * PAGE_SIZE) == 0
    requires io.ppSize <= space && !IsFull(io, space)
    ensures Logged(g, io, sh).ppSize <= space
  {
    var page := g.m * PAGE_SIZE;
    var q := Partials(io.stripes);
    assert io.ppSize == q * g.m * PAGE_SIZE;
    assert io.ppSize < space && 1 <= page;
    hide *;
    Assoc(q, g.m, PAGE_SIZE);
    RoomForOne(q, page, space);
    MulSucc(q, page);
    LoggedSize(g, io, sh);
  }

  lemma Assoc(a: nat, b: nat, c: nat)
    ensures a * b * c == a * (b * c)
  {
  }

  lemma LoggedSize(g: Geom, io: IoUnit, sh: Stripe)
    requires 1 <= g.chunk && 1 <= g.k
    ensures Logged(g, io, sh).ppSize <= io.ppSize + g.m * PAGE_SIZE
  {
  }
}
