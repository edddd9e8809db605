/** The partial parity log closes the write hole: whatever part of the logged
    writes reached the members, recovery leaves every logged block row with
    parities that encode its data. */
module PplClosed {
  import opened Arith
  import opened PplGeometry
  import opened PplLog
  import opened PplRecover
  import opened PplDecode
  import opened PplRows

  /** `after` is `before` with sh recovered */
  ghost predicate RowResult(g: Geom, code: Code, members: seq<Member>, sh: Stripe, before: Content, after: Content)
    requires Ready(g, members) && |sh.pp| == g.m * PAGE
  {
    forall slot: nat, q: nat :: At(after, slot, q) == RowCell(g, code, members, sh, before, slot, q)
  }

  predicate ByteInLog(g: Geom, log: seq<bv8>, pos: nat, b: nat, sh: Stripe, j: nat, t: nat) {
    j * PAGE + t < |sh.pp| && LogAt(log, pos + (b * g.m + j) * PAGE + t) == sh.pp[j * PAGE + t]
  }

  /** what row b put in the log is there */
  ghost predicate RowInLog(g: Geom, log: seq<bv8>, pos: nat, per: nat, b: nat, sh: Stripe)
    requires |sh.pp| == g.m * PAGE
  {
    && (sh.full <==> per == 0)
    && (!sh.full ==> forall j: nat, t: nat :: j < g.m && t < PAGE ==> ByteInLog(g, log, pos, b, sh, j, t))
  }

  lemma RowIsInLog(g: Geom, log: seq<bv8>, pos: nat, e: Entry, rows: seq<Stripe>, b: nat)
    requires Describes(g, e, rows) && Uniform(rows) && b < |rows|
    requires LogHolds(log, pos, rows)
    ensures |rows[b].pp| == g.m * PAGE
    ensures RowInLog(g, log, pos, PerParity(g, e), b, rows[b])
  {
    PagesSized(g, e, rows);
    SizesDecode(g, e, rows);
    UniformRow(rows, b);
    assert Partials(rows) == 0 || Partials(rows) == |rows|;
    hide *;
    if !rows[b].full {
      forall j: nat, t: nat | j < g.m && t < PAGE
        ensures ByteInLog(g, log, pos, b, rows[b], j, t)
      {
        LogRow(g, log, pos, rows, b, j, t);
        ByteIs(g, log, pos, b, rows[b], j, t);
      }
      PartialRow(g, log, pos, PerParity(g, e), b, rows[b]);
    } else {
      FullRow(g, log, pos, PerParity(g, e), b, rows[b]);
    }
  }

  lemma PagesSized(g: Geom, e: Entry, rows: seq<Stripe>)
    requires Describes(g, e, rows)
    ensures g.Valid()
    ensures PagesOk(g, rows)
  {
    assert forall i: nat :: i < |rows| ==> StripeOk(g, rows[i]);
  }

  lemma ByteIs(g: Geom, log: seq<bv8>, pos: nat, b: nat, sh: Stripe, j: nat, t: nat)
    requires j * PAGE + t < |sh.pp|
    requires LogAt(log, pos + (b * g.m + j) * PAGE + t) == sh.pp[j * PAGE + t]
    ensures ByteInLog(g, log, pos, b, sh, j, t)
  {
  }

  lemma PartialRow(g: Geom, log: seq<bv8>, pos: nat, per: nat, b: nat, sh: Stripe)
    requires |sh.pp| == g.m * PAGE && !sh.full && 0 < per
    requires forall j: nat, t: nat :: j < g.m && t < PAGE ==> ByteInLog(g, log, pos, b, sh, j, t)
    ensures RowInLog(g, log, pos, per, b, sh)
  {
  }

  lemma FullRow(g: Geom, log: seq<bv8>, pos: nat, per: nat, b: nat, sh: Stripe)
    requires |sh.pp| == g.m * PAGE && sh.full && per == 0
    ensures RowInLog(g, log, pos, per, b, sh)
  {
  }

  lemma RebuiltAt(g: Geom, code: Code, log: seq<bv8>, pos: nat, per: nat, b: nat, pages: map<int, seq<bv8>>, j: nat,
          t: nat)
    requires t < PAGE
    ensures Rebuilt(g, code, log, pos, per, PAGE, b, pages, j)[t]
         == Encode(code, j, (col: nat) => Lane(pages, col, t), g.k)
            ^ (if per > 0 then LogAt(log, pos + (b * g.m + j) * PAGE + t) else 0)
  {
  }

  /** parity j as rebuilt is the parity wanted */
  lemma RebuiltIs(g: Geom, code: Code, c: Content, sh: Stripe, log: seq<bv8>, pos: nat, per: nat, b: nat,
                  pages: map<int, seq<bv8>>, j: nat, t: nat)
    requires g.Valid() && |sh.pp| == g.m * PAGE && j < g.m && t < PAGE
    requires Holds(g, sh, c, sh.count, pages)
    requires RowInLog(g, log, pos, per, b, sh)
    ensures Rebuilt(g, code, log, pos, per, PAGE, b, pages, j)[t] == Wanted(g, code, c, sh, j, t)
  {
    var sector := SectorOf(g, sh);
    var want := (col: nat) => if Modified(sh, col) then At(c, CellSlot(g, sh, col), sector + t) else 0;
    var got := (col: nat) => Lane(pages, col, t);
    forall col: nat | col < g.k
      ensures got(col) == want(col)
    {
      if Modified(sh, col) {
        assert pages[col] == ReadBlock(c, CellSlot(g, sh, col), sector, PAGE);
      }
    }
    EncodeSame(code, j, got, want, g.k);
    PpIndex(g.m, j, t);
    assert !sh.full ==> ByteInLog(g, log, pos, b, sh, j, t);
    RebuiltAt(g, code, log, pos, per, b, pages, j, t);
  }

  /** block row b of the entry is where row b was logged */
  lemma RowPlaced(g: Geom, e: Entry, rows: seq<Stripe>, d: Decoded, b: nat)
    requires Describes(g, e, rows) && b < |rows| && DecodedRight(g, rows, d)
    ensures |rows[b].pp| == g.m * PAGE
    ensures d.unit == PAGE
    ensures PdIdx(g, rows[b].row) < g.N()
    ensures e.parityDisk == PdIdx(g, rows[b].row)
    ensures Locate(g, d.first + b * PAGE).pd == PdIdx(g, rows[b].row)
    ensures Locate(g, d.first + b * PAGE).sector == SectorOf(g, rows[b])
  {
    assert StripeOk(g, rows[b]);
    RowAt(g, e, rows, d, b);
  }

  lemma RowAt(g: Geom, e: Entry, rows: seq<Stripe>, d: Decoded, b: nat)
    requires Describes(g, e, rows) && b < |rows| && d.first == DataSector(g, rows[0])
    ensures PdIdx(g, rows[b].row) < g.N()
    ensures e.parityDisk == PdIdx(g, rows[b].row)
    ensures Locate(g, d.first + b * PAGE).pd == PdIdx(g, rows[b].row)
    ensures Locate(g, d.first + b * PAGE).sector == SectorOf(g, rows[b])
  {
    assert StripeOk(g, rows[b]) && InMatrix(rows[0], rows[b], b) && StripeOk(g, rows[0]);
    PdInRange(g, rows[b].row);
    RowPlace(g, e, rows, b, 0);
    assert Ahead(g, DataSector(g, rows[0]) + b * PAGE, 0) == d.first + b * PAGE;
  }

  lemma RowUnfolds(g: Geom, code: Code, members: seq<Member>, log: seq<bv8>, pos: nat, e: Entry, d: Decoded, b: nat,
          c: Content, 
                   got: Gathered, par: nat -> seq<bv8>)
    requires Ready(g, members) && d.unit == PAGE && e.parityDisk < g.N()
    requires Locate(g, d.first + b * PAGE).pd == e.parityDisk
    requires got == Gather(g, members, c, d, e.parityDisk, b * PAGE, 0, Gathered(false, map[]))
    requires par == ((j: nat) => Rebuilt(g, code, log, pos, PerParity(g, e), PAGE, b, got.pages, j))
    ensures RowDone(g, code, members, log, pos, e, d, b * PAGE, c)
         == Outcome(if got.update
                    then Parities(g, members, c, e.parityDisk, Locate(g, d.first + b * PAGE).sector, par, g.m)
                    else c, true)
  {
    DivModUnique(b, 0, PAGE);
    assert BlockIndex(b * PAGE, PAGE) == b;
    hide Gather, Locate, Rebuilt, Parities, PerParity, BlockIndex;
  }

  /** Recovery of one block row of a uniform entry. */
  lemma RowDoneIs(g: Geom, code: Code, members: seq<Member>, log: seq<bv8>, pos: nat, e: Entry, rows: seq<Stripe>,
          e': Entry, d: Decoded, b: nat, c: Content)
    requires Ready(g, members) && Describes(g, e, rows) && Uniform(rows) && b < |rows|
    requires e' == e.(dataSector := e'.dataSector) && DecodedRight(g, rows, d)
    requires LogHolds(log, pos, rows)
    ensures |rows[b].pp| == g.m * PAGE && 1 <= d.unit
    ensures var out := RowDone(g, code, members, log, pos, e', d, b * PAGE, c);
            out.sane && RowResult(g, code, members, rows[b], c, out.content)
  {
    var sh := rows[b];
    RowPlaced(g, e, rows, d, b);
    assert Holds(g, sh, c, 0, map[]) && 1 <= g.m && PerParity(g, e') == PerParity(g, e);
    hide *;
    RowIsInLog(g, log, pos, e, rows, b);
    GatherIs(g, members, c, e, rows, d, b, 0, Gathered(false, map[]));
    var got := Gather(g, members, c, d, e.parityDisk, b * PAGE, 0, Gathered(false, map[]));
    var par := (j: nat) => Rebuilt(g, code, log, pos, PerParity(g, e'), PAGE, b, got.pages, j);
    RowUnfolds(g, code, members, log, pos, e', d, b, c, got, par);
    if got.update {
      ParitiesMakeRow(g, code, members, c, sh, log, pos, PerParity(g, e), b, got.pages, par);
    } else {
      NoRow(g, code, members, sh, c);
    }
  }

  lemma NoRow(g: Geom, code: Code, members: seq<Member>, sh: Stripe, c: Content)
    requires Ready(g, members) && |sh.pp| == g.m * PAGE
    requires !AllReadable(g, members, sh)
    ensures RowResult(g, code, members, sh, c, c)
  {
  }

  lemma ParitiesMakeRow(g: Geom, code: Code, members: seq<Member>, c: Content, sh: Stripe, log: seq<bv8>, pos: nat,
          per: nat, b: nat, 
                        pages: map<int, seq<bv8>>, par: nat -> seq<bv8>)
    requires Ready(g, members) && |sh.pp| == g.m * PAGE && PdIdx(g, sh.row) < g.N()
    requires AllReadable(g, members, sh)
    requires Holds(g, sh, c, sh.count, pages)
    requires RowInLog(g, log, pos, per, b, sh)
    requires forall j: nat :: par(j) == Rebuilt(g, code, log, pos, per, PAGE, b, pages, j)
    ensures RowResult(g, code, members, sh, c, Parities(g, members, c, PdIdx(g, sh.row), SectorOf(g, sh), par, g.m))
  {
    var pd, sector := PdIdx(g, sh.row), SectorOf(g, sh);
    forall slot: nat, q: nat
      ensures At(Parities(g, members, c, pd, sector, par, g.m), slot, q) == RowCell(g, code, members, sh, c, slot, q)
    {
      ParitiesAt(g, members, c, pd, sector, par, g.m, slot, q);
      if Covers(g, members, sh, slot, q) {
        RebuiltIs(g, code, c, sh, log, pos, per, b, pages, Rel(g, pd, slot), q - sector);
      }
    }
  }

  // ---- one entry, one log ----

  /** cell (slot, q) after recovery of the stripes in order */
  ghost function Cell(g: Geom, code: Code, members: seq<Member>, stripes: seq<Stripe>, now: Content, slot: nat,
          q: nat): bv8
    requires Ready(g, members)
    requires PagesOk(g, stripes)
  {
    if stripes == [] then At(now, slot, q)
    else
      var sh := stripes[|stripes| - 1];
      if Covers(g, members, sh, slot, q)
      then Wanted(g, code, now, sh, Rel(g, PdIdx(g, sh.row), slot), q - SectorOf(g, sh))
      else Cell(g, code, members, stripes[..|stripes| - 1], now, slot, q)
  }

  ghost predicate PagesOk(g: Geom, stripes: seq<Stripe>) {
    forall i: nat :: i < |stripes| ==> |stripes[i].pp| == g.m * PAGE
  }

  ghost predicate AllOk(g: Geom, stripes: seq<Stripe>) {
    forall i: nat :: i < |stripes| ==> StripeOk(g, stripes[i])
  }

  ghost predicate Result(g: Geom, code: Code, members: seq<Member>, stripes: seq<Stripe>, now: Content, after: Content)
    requires Ready(g, members)
    requires PagesOk(g, stripes)
  {
    forall slot: nat, q: nat :: At(after, slot, q) == Cell(g, code, members, stripes, now, slot, q)
  }

  lemma SamePage(x: nat, y: nat, q: nat)
    requires x % PAGE == 0 && y % PAGE == 0 && x <= q < x + PAGE && y <= q < y + PAGE
    ensures x == y
  {
  }

  /** two pages of the members are the same page or apart */
  lemma PagesApart(g: Geom, a: Stripe, b: Stripe, q: nat)
    requires StripeOk(g, a) && StripeOk(g, b)
    requires InPage(g, a, q) && InPage(g, b, q)
    ensures a.row == b.row && a.off == b.off
  {
    WholePages(g.chunk, a.row, a.off);
    WholePages(g.chunk, b.row, b.off);
    SamePage(SectorOf(g, a), SectorOf(g, b), q);
    hide StripeOk;
    DivModUnique(a.row, a.off, g.chunk);
    DivModUnique(b.row, b.off, g.chunk);
  }

  /** data cells of a logged row are left as the stop found them */
  lemma {:induction false} DataStays(g: Geom, code: Code, members: seq<Member>, stripes: seq<Stripe>, now: Content,
          sh: Stripe, col: nat, t: nat)
    requires Ready(g, members) && AllOk(g, stripes) && StripeOk(g, sh)
    requires col < g.k && t < PAGE
    ensures PagesOk(g, stripes)
    ensures Cell(g, code, members, stripes, now, CellSlot(g, sh, col), SectorOf(g, sh) + t)
         == At(now, CellSlot(g, sh, col), SectorOf(g, sh) + t)
  {
    assert forall i: nat :: i < |stripes| ==> StripeOk(g, stripes[i]);
    if stripes != [] {
      DataStays(g, code, members, stripes[..|stripes| - 1], now, sh, col, t);
      var last := stripes[|stripes| - 1];
      if Covers(g, members, last, CellSlot(g, sh, col), SectorOf(g, sh) + t) {
        PagesApart(g, last, sh, SectorOf(g, sh) + t);
        DataSlotIndex(g, PdIdx(g, sh.row), col);
        assert false;
      }
    }
  }

  /** the wanted parity is the same computed before or after other rows */
  lemma WantedSame(g: Geom, code: Code, members: seq<Member>, stripes: seq<Stripe>, now: Content, c: Content,
          sh: Stripe, j: nat, t: nat)
    requires Ready(g, members) && AllOk(g, stripes) && StripeOk(g, sh) && j < g.m && t < PAGE
    requires PagesOk(g, stripes)
    requires Result(g, code, members, stripes, now, c)
    ensures Wanted(g, code, c, sh, j, t) == Wanted(g, code, now, sh, j, t)
  {
    var sector := SectorOf(g, sh);
    var a := (col: nat) => if Modified(sh, col) then At(c, CellSlot(g, sh, col), sector + t) else 0;
    var b := (col: nat) => if Modified(sh, col) then At(now, CellSlot(g, sh, col), sector + t) else 0;
    forall col: nat | col < g.k
      ensures a(col) == b(col)
    {
      DataStays(g, code, members, stripes, now, sh, col, t);
    }
    EncodeSame(code, j, a, b, g.k);
  }

  lemma ResultMore(g: Geom, code: Code, members: seq<Member>, stripes: seq<Stripe>, now: Content, c: Content,
          sh: Stripe, after: Content)
    requires Ready(g, members) && AllOk(g, stripes) && StripeOk(g, sh)
    requires PagesOk(g, stripes)
    requires Result(g, code, members, stripes, now, c)
    requires |sh.pp| == g.m * PAGE && RowResult(g, code, members, sh, c, after)
    ensures AllOk(g, stripes + [sh])
    ensures PagesOk(g, stripes + [sh])
    ensures Result(g, code, members, stripes + [sh], now, after)
  {
    var all := stripes + [sh];
    assert all[..|all| - 1] == stripes && all[|all| - 1] == sh;
    forall slot: nat, q: nat
      ensures At(after, slot, q) == Cell(g, code, members, all, now, slot, q)
    {
      assert At(after, slot, q) == RowCell(g, code, members, sh, c, slot, q);
      assert At(c, slot, q) == Cell(g, code, members, stripes, now, slot, q);
      if Covers(g, members, sh, slot, q) {
        WantedSame(g, code, members, stripes, now, c, sh, Rel(g, PdIdx(g, sh.row), slot), q - SectorOf(g, sh));
      }
    }
  }

  /** Recovery of a uniform entry, from its row b on. */
  lemma {:induction false} RowsAre(g: Geom, code: Code, members: seq<Member>, log: seq<bv8>, pos: nat, e: Entry,
          rows: seq<Stripe>, 
                                   e': Entry, d: Decoded, past: seq<Stripe>, b: nat, now: Content, c: Content)
    requires Ready(g, members) && Describes(g, e, rows) && Uniform(rows) && b <= |rows|
    requires e' == e.(dataSector := e'.dataSector) && DecodedRight(g, rows, d)
    requires LogHolds(log, pos, rows)
    requires AllOk(g, past + rows)
    requires PagesOk(g, past + rows)
    requires PagesOk(g, past + rows[..b])
    requires Result(g, code, members, past + rows[..b], now, c)
    ensures 1 <= d.unit
    ensures var out := RowsFrom(g, code, members, log, pos, e', d, b * PAGE, c);
            out.sane && Result(g, code, members, past + rows, now, out.content)
    decreases |rows| - b
  {
    hide *;
    DecodedStrip(g, e, rows, d);
    RowStep(g, code, members, log, pos, e', d, b * PAGE, c);
    if b == |rows| {
      assert rows[..b] == rows;
    } else {
      var before := past + rows[..b];
      Prefixes(g, past, rows, b);
      assert before + [rows[b]] == past + rows[..b + 1];
      RowDoneIs(g, code, members, log, pos, e, rows, e', d, b, c);
      var row := RowDone(g, code, members, log, pos, e', d, b * PAGE, c);
      ResultMore(g, code, members, before, now, c, rows[b], row.content);
      RowsAre(g, code, members, log, pos, e, rows, e', d, past, b + 1, now, row.content);
    }
  }

  lemma DecodedStrip(g: Geom, e: Entry, rows: seq<Stripe>, d: Decoded)
    requires Describes(g, e, rows) && DecodedRight(g, rows, d)
    ensures 1 <= d.unit == PAGE && d.strip == |rows| * PAGE && g.Valid()
  {
  }

  lemma RowStep(g: Geom, code: Code, members: seq<Member>, log: seq<bv8>, pos: nat, e: Entry, d: Decoded, i: nat,
          c: Content)
    requires Ready(g, members) && d.unit == PAGE
    ensures i >= d.strip ==> RowsFrom(g, code, members, log, pos, e, d, i, c) == Outcome(c, true)
    ensures i < d.strip ==>
              (var row := RowDone(g, code, members, log, pos, e, d, i, c);
               RowsFrom(g, code, members, log, pos, e, d, i, c)
               == if !row.sane then row else RowsFrom(g, code, members, log, pos, e, d, i + PAGE, row.content))
  {
    hide RowDone;
  }

  lemma Prefixes(g: Geom, past: seq<Stripe>, rows: seq<Stripe>, b: nat)
    requires AllOk(g, past + rows) && b < |rows|
    ensures AllOk(g, past + rows[..b]) && StripeOk(g, rows[b])
  {
    assert forall i: nat :: i < |past + rows[..b]| ==> (past + rows[..b])[i] == (past + rows)[i];
    assert (past + rows)[|past| + b] == rows[b];
  }

  function StoredAll(unit0: nat, entries: seq<Entry>): (s: seq<Entry>)
    requires 1 <= unit0
    ensures |s| == |entries|
    ensures forall i: nat :: i < |entries| ==> s[i] == Stored(unit0, entries[i])
  {
    if entries == [] then []
    else StoredAll(unit0, entries[..|entries| - 1]) + [Stored(unit0, entries[|entries| - 1])]
  }

  lemma {:induction false} PpJoin(a: seq<Stripe>, b: seq<Stripe>)
    ensures PpOf(a + b) == PpOf(a) + PpOf(b)
  {
    if b == [] {
      assert a + b == a;
    } else {
      var init := b[..|b| - 1];
      PpJoin(a, init);
      assert (a + b)[..|a + b| - 1] == a + init;
    }
  }

  lemma {:induction false} JoinOk(g: Geom, io: IoUnit, groups: seq<seq<Stripe>>, i: nat)
    requires UnitOk(g, io, groups) && i <= |groups|
    ensures AllOk(g, Join(groups[..i]))
    ensures PagesOk(g, Join(groups[..i]))
  {
    if i > 0 {
      JoinOk(g, io, groups, i - 1);
      assert groups[..i][..i - 1] == groups[..i - 1];
      assert Describes(g, io.entries[i - 1], groups[i - 1]);
    }
  }

  /** the partial parity of entry i starts where that of the earlier ones ends */
  lemma {:induction false} PpPlaced(groups: seq<seq<Stripe>>, i: nat)
    requires i < |groups|
    ensures LogHolds(PpOf(Join(groups)), |PpOf(Join(groups[..i]))|, groups[i])
    ensures |PpOf(Join(groups[..i + 1]))| == |PpOf(Join(groups[..i]))| + |PpOf(groups[i])|
  {
    hide *;
    var n := |groups|;
    JoinStep(groups, i);
    JoinStep(groups, n - 1);
    PpJoin(Join(groups[..i]), groups[i]);
    PpJoin(Join(groups[..n - 1]), groups[n - 1]);
    assert groups[..n] == groups;
    if i == n - 1 {
      LogEnds(PpOf(Join(groups[..i])), groups[i]);
    } else {
      var init := groups[..n - 1];
      PpPlaced(init, i);
      assert init[..i] == groups[..i];
      LogLonger(PpOf(Join(init)), PpOf(groups[n - 1]), |PpOf(Join(groups[..i]))|, groups[i]);
    }
  }

  lemma JoinStep(groups: seq<seq<Stripe>>, i: nat)
    requires i < |groups|
    ensures Join(groups[..i + 1]) == Join(groups[..i]) + groups[i]
  {
    assert groups[..i + 1][..i] == groups[..i];
  }

  lemma LogEnds(log: seq<bv8>, rows: seq<Stripe>)
    ensures LogHolds(log + PpOf(rows), |log|, rows)
  {
  }

  lemma LogLonger(log: seq<bv8>, more: seq<bv8>, pos: nat, rows: seq<Stripe>)
    requires LogHolds(log, pos, rows)
    ensures LogHolds(log + more, pos, rows)
  {
    var n := |PpOf(rows)|;
    assert (log + more)[pos..pos + n] == log[pos..pos + n];
  }

  lemma SliceAt(log: seq<bv8>, pos: nat, n: nat, t: nat)
    requires t < n
    ensures LogSlice(log, pos, n)[t] == LogAt(log, pos + t)
  {
  }

  lemma SealSize(q: nat, m: nat)
    ensures q * m * PAGE_SIZE / 512 == q * (m * PAGE)
  {
    assert q * m * PAGE_SIZE == (q * (m * PAGE)) * 512;
    DivModUnique(q * (m * PAGE), 0, 512);
  }

  /** the checksum of a logged entry matches */
  lemma SealMatches(g: Geom, e: Entry, rows: seq<Stripe>, log: seq<bv8>, pos: nat)
    requires Describes(g, e, rows) && LogHolds(log, pos, rows)
    ensures e.ppSize / 512 == |PpOf(rows)|
    ensures LogSlice(log, pos, e.ppSize / 512) == e.checked
  {
    PagesSized(g, e, rows);
    PpSize(g, rows);
    assert e.ppSize == Partials(rows) * g.m * PAGE_SIZE && e.checked == PpOf(rows);
    var n := |PpOf(rows)|;
    hide *;
    SealSize(Partials(rows), g.m);
    forall t: nat | t < n
      ensures LogSlice(log, pos, n)[t] == PpOf(rows)[t]
    {
      LogSlot(log, pos, rows, t);
      SliceAt(log, pos, n, t);
    }
  }

  ghost predicate AllUniform(groups: seq<seq<Stripe>>) {
    forall i: nat :: i < |groups| ==> Uniform(groups[i])
  }

  /** Recovery of a log whose entries are uniform, from entry i on. */
  lemma {:induction false} EntriesAre(g: Geom, code: Code, members: seq<Member>, unit0: nat, io: IoUnit,
          groups: seq<seq<Stripe>>, 
                                      i: nat, pos: nat, now: Content, c: Content)
    requires Ready(g, members) && UnitOk(g, io, groups) && 1 <= unit0 && BlockOk(unit0) && AllUniform(groups)
    requires i <= |groups| && pos == |PpOf(Join(groups[..i]))|
    requires PagesOk(g, Join(groups[..i]))
    requires Result(g, code, members, Join(groups[..i]), now, c)
    ensures PagesOk(g, io.stripes)
    ensures var out := EntriesFrom(g, code, members, PpOf(io.stripes), unit0, StoredAll(unit0, io.entries), i, pos, c);
            out.sane && Result(g, code, members, io.stripes, now, out.content)
    decreases |groups| - i
  {
    hide *;
    assert groups[..|groups|] == groups;
    UnitShape(g, io, groups);
    EntryStep(g, code, members, PpOf(io.stripes), unit0, StoredAll(unit0, io.entries), i, pos, c);
    JoinOk(g, io, groups, |groups|);
    if i < |groups| {
      EntryIs(g, code, members, unit0, io, groups, i, pos, now, c);
      var e := Stored(unit0, io.entries[i]);
      var out := RowsFrom(g, code, members, PpOf(io.stripes), pos, e, Decode(g, unit0, e), 0, c);
      EntriesAre(g, code, members, unit0, io, groups, i + 1, pos + e.ppSize / 512, now, out.content);
    }
  }

  lemma UnitShape(g: Geom, io: IoUnit, groups: seq<seq<Stripe>>)
    requires UnitOk(g, io, groups)
    ensures io.stripes == Join(groups) && |io.entries| == |groups| && g.Valid()
  {
  }

  lemma EntryStep(g: Geom, code: Code, members: seq<Member>, log: seq<bv8>, unit0: nat, entries: seq<Entry>, i: nat,
          pos: nat, c: Content)
    requires Ready(g, members) && 1 <= unit0
    ensures i >= |entries| ==> EntriesFrom(g, code, members, log, unit0, entries, i, pos, c) == Outcome(c, true)
    ensures (i < |entries|
             && LogSlice(log, pos, entries[i].ppSize / 512) == entries[i].checked
             && 1 <= Decode(g, unit0, entries[i]).unit)
        ==> (var out := RowsFrom(g, code, members, log, pos, entries[i], Decode(g, unit0, entries[i]), 0, c);
             EntriesFrom(g, code, members, log, unit0, entries, i, pos, c)
             == if !out.sane then out
                else EntriesFrom(g, code, members, log, unit0, entries, i + 1, pos + entries[i].ppSize / 512, out.content))
  {
    hide RowsFrom, Decode, LogSlice;
  }

  lemma EntryIs(g: Geom, code: Code, members: seq<Member>, unit0: nat, io: IoUnit, groups: seq<seq<Stripe>>,
                i: nat, pos: nat, now: Content, c: Content)
    requires Ready(g, members) && UnitOk(g, io, groups) && 1 <= unit0 && BlockOk(unit0) && AllUniform(groups)
    requires i < |groups| && pos == |PpOf(Join(groups[..i]))|
    requires PagesOk(g, Join(groups[..i]))
    requires Result(g, code, members, Join(groups[..i]), now, c)
    ensures var e := Stored(unit0, io.entries[i]);
            && LogSlice(PpOf(io.stripes), pos, e.ppSize / 512) == e.checked
            && pos + e.ppSize / 512 == |PpOf(Join(groups[..i + 1]))|
            && 1 <= Decode(g, unit0, e).unit
    ensures PagesOk(g, Join(groups[..i + 1]))
    ensures var e := Stored(unit0, io.entries[i]);
            var out := RowsFrom(g, code, members, PpOf(io.stripes), pos, e, Decode(g, unit0, e), 0, c);
            out.sane && Result(g, code, members, Join(groups[..i + 1]), now, out.content)
  {
    var rows, past, e := groups[i], Join(groups[..i]), io.entries[i];
    var e' := Stored(unit0, e);
    var d := Decode(g, unit0, e');
    assert Describes(g, e, rows) && io.stripes == Join(groups) && 1 <= unit0;
    assert e' == e.(dataSector := e'.dataSector);
    assert past + rows[..0] == past && 0 * PAGE == 0;
    assert groups[..i + 1][..i] == groups[..i];
    assert Join(groups[..i + 1]) == past + rows;
    assert Uniform(rows);
    hide *;
    PpPlaced(groups, i);
    SealMatches(g, e, rows, PpOf(io.stripes), pos);
    UniformDecodes(g, unit0, e, rows);
    JoinOk(g, io, groups, i + 1);
    RowsAre(g, code, members, PpOf(io.stripes), pos, e, rows, e', d, past, 0, now, c);
  }
}
