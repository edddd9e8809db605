/** Recovery of one uniform entry: each logged block row whose modified members
    can be read gets every writable parity back, and nothing else changes. */
module PplRows {
  import opened Arith
  import opened PplGeometry
  import opened PplLog
  import opened PplRecover
  import opened PplDecode

  predicate Modified(sh: Stripe, col: nat) {
    sh.first <= col < sh.first + sh.count
  }

  function CellSlot(g: Geom, sh: Stripe, col: nat): (s: nat)
    requires 1 <= g.k && 1 <= g.m
  {
    DataSlot(g, PdIdx(g, sh.row), col)
  }

  ghost predicate ColumnReadable(g: Geom, members: seq<Member>, sh: Stripe, col: nat)
    requires Ready(g, members)
  {
    var slot := CellSlot(g, sh, col);
    slot < |members| && Readable(members[slot], SectorOf(g, sh))
  }

  ghost predicate AllReadable(g: Geom, members: seq<Member>, sh: Stripe)
    requires Ready(g, members)
  {
    forall col: nat :: Modified(sh, col) ==> ColumnReadable(g, members, sh, col)
  }

  /** byte t of parity j as recovery makes it: the modified data now on the
      members encoded, plus what the log kept of the rest */
  ghost function Wanted(g: Geom, code: Code, now: Content, sh: Stripe, j: nat, t: nat): bv8
    requires g.Valid() && j < g.m && t < PAGE && |sh.pp| == g.m * PAGE
  {
    var sector := SectorOf(g, sh);
    PpIndex(g.m, j, t);
    Encode(code, j, (col: nat) => if Modified(sh, col) then At(now, CellSlot(g, sh, col), sector + t) else 0, g.k)
    ^ (if sh.full then 0 else sh.pp[j * PAGE + t])
  }

  lemma PpIndex(m: nat, j: nat, t: nat)
    requires j < m && t < PAGE
    ensures j * PAGE + t < m * PAGE
  {
    IndexInBounds(j, t, m, PAGE);
  }

  predicate InPage(g: Geom, sh: Stripe, q: nat) {
    SectorOf(g, sh) <= q < SectorOf(g, sh) + PAGE
  }

  /** recovery of sh writes this cell */
  ghost predicate Covers(g: Geom, members: seq<Member>, sh: Stripe, slot: nat, q: nat)
    requires Ready(g, members)
  {
    && slot < g.N()
    && PdIdx(g, sh.row) < g.N()
    && IsParity(g, PdIdx(g, sh.row), slot)
    && Writable(members[slot])
    && InPage(g, sh, q)
    && AllReadable(g, members, sh)
  }

  /** cell (slot, q) after recovery of sh alone */
  ghost function RowCell(g: Geom, code: Code, members: seq<Member>, sh: Stripe, now: Content, slot: nat, q: nat): bv8
    requires Ready(g, members) && |sh.pp| == g.m * PAGE
  {
    if Covers(g, members, sh, slot, q)
    then Wanted(g, code, now, sh, Rel(g, PdIdx(g, sh.row), slot), q - SectorOf(g, sh))
    else At(now, slot, q)
  }

  lemma EncodeSame(code: Code, j: nat, a: nat -> bv8, b: nat -> bv8, k: nat)
    requires forall i: nat :: i < k ==> a(i) == b(i)
    ensures Encode(code, j, a, k) == Encode(code, j, b, k)
  {
  }

  /** row b of the entry, and its place */
  lemma RowPlace(g: Geom, e: Entry, rows: seq<Stripe>, b: nat, col: nat)
    requires Describes(g, e, rows) && b < |rows| && rows[0].first + col < g.k
    ensures StripeOk(g, rows[b]) && InMatrix(rows[0], rows[b], b)
    ensures Locate(g, Ahead(g, DataSector(g, rows[0]) + b * PAGE, col))
         == Place(CellSlot(g, rows[b], rows[b].first + col), PdIdx(g, rows[b].row), SectorOf(g, rows[b]))
  {
    var sh := rows[b];
    assert StripeOk(g, sh) && InMatrix(rows[0], sh, b);
    assert DataSector(g, rows[0]) + b * PAGE == ArraySector(g, sh.row, sh.first, sh.off);
    NextColumn(g, sh.row, sh.first, col, sh.off);
    LocateColumn(g, sh.row, sh.first + col, sh.off);
  }

  /** the pages gathered after `disk` members */
  ghost predicate Holds(g: Geom, sh: Stripe, c: Content, disk: nat, pages: map<int, seq<bv8>>)
    requires g.Valid()
  {
    && (forall col: nat :: col in pages <==> sh.first <= col < sh.first + disk)
    && (forall col: nat :: sh.first <= col < sh.first + disk ==>
          col in pages && pages[col] == ReadBlock(c, CellSlot(g, sh, col), SectorOf(g, sh), PAGE))
  }

  lemma {:induction false} GatherPast(g: Geom, members: seq<Member>, c: Content, d: Decoded, pd: nat, count: nat,
          n: nat, b: nat, disk: nat, so: Gathered)
    requires Ready(g, members) && pd < g.N()
    requires ReadsMatrix(g, d, count, n) && b < n && count <= disk
    ensures Gather(g, members, c, d, pd, b * PAGE, disk, so) == so
    decreases d.disks - disk
  {
    if disk < d.disks {
      assert !Within(g, d, b, disk);
      GatherPast(g, members, c, d, pd, count, n, b, disk + 1, so);
    }
  }

  lemma HoldsMore(g: Geom, sh: Stripe, c: Content, disk: nat, pages: map<int, seq<bv8>>)
    requires g.Valid() && Holds(g, sh, c, disk, pages)
    ensures Holds(g, sh, c, disk + 1,
                  pages[(sh.first + disk) as int := ReadBlock(c, CellSlot(g, sh, sh.first + disk), SectorOf(g, sh), PAGE)])
  {
  }

  lemma GatherStep(g: Geom, members: seq<Member>, c: Content, e: Entry, rows: seq<Stripe>, d: Decoded, b: nat,
          disk: nat, so: Gathered)
    requires Ready(g, members) && Describes(g, e, rows) && b < |rows|
    requires DecodedRight(g, rows, d)
    requires disk < rows[b].count && PdIdx(g, rows[b].row) < g.N()
    ensures rows[b].count == rows[0].count
    ensures var sh, pd := rows[b], PdIdx(g, rows[b].row);
            var col := sh.first + disk;
            Gather(g, members, c, d, pd, b * PAGE, disk, so)
            == if ColumnReadable(g, members, sh, col)
               then Gather(g, members, c, d, pd, b * PAGE, disk + 1,
                           Gathered(true, so.pages[col as int := ReadBlock(c, CellSlot(g, sh, col), SectorOf(g, sh), PAGE)]))
               else Gathered(false, so.pages)
  {
    assert StripeOk(g, rows[b]) && InMatrix(rows[0], rows[b], b);
    RowPlace(g, e, rows, b, disk);
    DataSlotIndex(g, PdIdx(g, rows[b].row), rows[b].first + disk);
    assert Within(g, d, b, disk);
    hide Describes, StripeOk, Locate, DataIndex, DataSlot, PdIdx, ReadBlock, SectorOf, DataSector;
  }

  lemma GatherEnd(g: Geom, members: seq<Member>, c: Content, e: Entry, rows: seq<Stripe>, d: Decoded, b: nat,
          so: Gathered)
    requires Ready(g, members) && Describes(g, e, rows) && b < |rows| && DecodedRight(g, rows, d)
    requires forall col: nat :: Modified(rows[b], col) ==> ColumnReadable(g, members, rows[b], col)
    requires PdIdx(g, rows[b].row) < g.N()
    ensures Gather(g, members, c, d, PdIdx(g, rows[b].row), b * PAGE, rows[b].count, so) == so
    ensures AllReadable(g, members, rows[b])
  {
    assert InMatrix(rows[0], rows[b], b);
    hide Gather, ColumnReadable;
    GatherPast(g, members, c, d, PdIdx(g, rows[b].row), rows[b].count, |rows|, b, rows[b].count, so);
  }

  /** The loop over the members reads exactly the modified columns. */
  lemma {:induction false} GatherIs(g: Geom, members: seq<Member>, c: Content, e: Entry, rows: seq<Stripe>,
          d: Decoded, b: nat, disk: nat, so: Gathered)
    requires Ready(g, members) && Describes(g, e, rows) && b < |rows|
    requires DecodedRight(g, rows, d)
    requires disk <= rows[b].count && Holds(g, rows[b], c, disk, so.pages)
    requires so.update <==> disk > 0
    requires forall col: nat :: rows[b].first <= col < rows[b].first + disk ==> ColumnReadable(g, members, rows[b], col)
    requires PdIdx(g, rows[b].row) < g.N()
    ensures var got := Gather(g, members, c, d, PdIdx(g, rows[b].row), b * PAGE, disk, so);
            && (got.update <==> AllReadable(g, members, rows[b]))
            && (got.update ==> Holds(g, rows[b], c, rows[b].count, got.pages))
    decreases rows[b].count - disk
  {
    var sh := rows[b];
    if disk == sh.count {
      GatherEnd(g, members, c, e, rows, d, b, so);
      hide Gather, Describes, DecodedRight, ColumnReadable, Holds, AllReadable;
    } else {
      var col := sh.first + disk;
      GatherStep(g, members, c, e, rows, d, b, disk, so);
      hide Gather, Describes, DecodedRight, ColumnReadable, Holds;
      assert Modified(sh, col);
      HoldsMore(g, sh, c, disk, so.pages);
      if ColumnReadable(g, members, sh, col) {
        var next := so.pages[col as int := ReadBlock(c, CellSlot(g, sh, col), SectorOf(g, sh), PAGE)];
        GatherIs(g, members, c, e, rows, d, b, disk + 1, Gathered(true, next));
      }
    }
  }

  /** Writing the parities puts parity j at its slot and touches nothing else. */
  lemma {:induction false} ParitiesAt(g: Geom, members: seq<Member>, c: Content, pd: nat, sector: nat,
          par: nat -> seq<bv8>, j: nat, slot: nat, q: nat)
    requires Ready(g, members) && pd < g.N() && j <= g.m
    requires forall x: nat :: |par(x)| == PAGE
    ensures At(Parities(g, members, c, pd, sector, par, j), slot, q)
         == if slot < g.N() && Rel(g, pd, slot) < j && Writable(members[slot]) && sector <= q < sector + PAGE
            then par(Rel(g, pd, slot))[q - sector]
            else At(c, slot, q)
  {
    if j > 0 {
      ParitiesAt(g, members, c, pd, sector, par, j - 1, slot, q);
      var s := ParitySlot(g, pd, j - 1);
      ParityRel(g, pd, j - 1, slot);
      WrittenAt(Parities(g, members, c, pd, sector, par, j - 1), s, sector, par(j - 1), slot, q);
    }
  }

  lemma ParityRel(g: Geom, pd: nat, j: nat, slot: nat)
    requires pd < g.N() && j < g.m
    ensures ParitySlot(g, pd, j) < g.N()
    ensures slot == ParitySlot(g, pd, j) <==> slot < g.N() && Rel(g, pd, slot) == j
  {
    Turned(j, pd, g.N());
    if slot < g.N() {
      RelBack(g, pd, slot);
    }
  }

  // ---- where a row's partial parity lies in the log ----

  lemma {:induction false} PpSize(g: Geom, rows: seq<Stripe>)
    requires forall b: nat :: b < |rows| ==> |rows[b].pp| == g.m * PAGE
    ensures |PpOf(rows)| == Partials(rows) * (g.m * PAGE)
  {
    if rows != [] {
      PpSize(g, rows[..|rows| - 1]);
      MulSucc(Partials(rows[..|rows| - 1]), g.m * PAGE);
    }
  }

  lemma {:induction false} PpRow(g: Geom, rows: seq<Stripe>, b: nat, x: nat)
    requires forall i: nat :: i < |rows| ==> |rows[i].pp| == g.m * PAGE
    requires Partials(rows) == |rows|
    requires b < |rows| && x < g.m * PAGE
    ensures b * (g.m * PAGE) + x < |PpOf(rows)|
    ensures PpOf(rows)[b * (g.m * PAGE) + x] == rows[b].pp[x]
  {
    var init := rows[..|rows| - 1];
    PartialsBound(init);
    PpSize(g, rows);
    PpSize(g, init);
    IndexInBounds(b, x, |rows|, g.m * PAGE);
    UniformRow(rows, |rows| - 1);
    if b < |init| {
      PpRow(g, init, b, x);
    }
  }

  /** the log holds the entry's partial parity at pos */
  ghost predicate LogHolds(log: seq<bv8>, pos: nat, rows: seq<Stripe>) {
    pos + |PpOf(rows)| <= |log| && log[pos..pos + |PpOf(rows)|] == PpOf(rows)
  }

  lemma PpPlace(b: nat, m: nat, j: nat, t: nat)
    ensures (b * m + j) * PAGE + t == b * (m * PAGE) + (j * PAGE + t)
  {
  }

  lemma LogRow(g: Geom, log: seq<bv8>, pos: nat, rows: seq<Stripe>, b: nat, j: nat, t: nat)
    requires forall i: nat :: i < |rows| ==> |rows[i].pp| == g.m * PAGE
    requires LogHolds(log, pos, rows) && Partials(rows) == |rows|
    requires b < |rows| && j < g.m && t < PAGE
    ensures j * PAGE + t < g.m * PAGE
    ensures LogAt(log, pos + (b * g.m + j) * PAGE + t) == rows[b].pp[j * PAGE + t]
  {
    hide *;
    PpIndex(g.m, j, t);
    PpRow(g, rows, b, j * PAGE + t);
    PpPlace(b, g.m, j, t);
    LogSlot(log, pos, rows, b * (g.m * PAGE) + (j * PAGE + t));
  }

  lemma LogSlot(log: seq<bv8>, pos: nat, rows: seq<Stripe>, x: nat)
    requires LogHolds(log, pos, rows) && x < |PpOf(rows)|
    ensures LogAt(log, pos + x) == PpOf(rows)[x]
  {
    assert log[pos..pos + |PpOf(rows)|][x] == log[pos + x];
  }
}
