/** The theorems about the partial parity log: recovery closes the write hole
    for every way the logged writes can be torn, exactly when every entry is
    uniform. */
module PplHole {
  import opened Arith
  import opened PplGeometry
  import opened PplLog
  import opened PplRecover
  import opened PplDecode
  import opened PplRows
  import opened PplClosed

  // ---- what the log promises about the members ----

  /** byte t of data column col of a row, on the members */
  function DataAt(g: Geom, c: Content, sh: Stripe, col: nat, t: nat): bv8
    requires 1 <= g.k && 1 <= g.m
  {
    At(c, CellSlot(g, sh, col), SectorOf(g, sh) + t)
  }

  function ParityAt(g: Geom, c: Content, sh: Stripe, j: nat, t: nat): bv8
    requires 1 <= g.k && 1 <= g.m
  {
    At(c, ParitySlot(g, PdIdx(g, sh.row), j), SectorOf(g, sh) + t)
  }

  /** parity j of the data on the members */
  ghost function Right(g: Geom, code: Code, c: Content, sh: Stripe, j: nat, t: nat): bv8
    requires 1 <= g.k && 1 <= g.m
  {
    Encode(code, j, (col: nat) => DataAt(g, c, sh, col, t), g.k)
  }

  /** parity j of the columns the write leaves alone */
  ghost function Rest(g: Geom, code: Code, c: Content, sh: Stripe, j: nat, t: nat): bv8
    requires 1 <= g.k && 1 <= g.m
  {
    Encode(code, j, (col: nat) => if Modified(sh, col) then 0 else DataAt(g, c, sh, col, t), g.k)
  }

  /** the partial parity handed to the log is that of the unmodified columns */
  ghost predicate Honest(g: Geom, code: Code, c: Content, sh: Stripe)
    requires StripeOk(g, sh)
  {
    !sh.full ==> forall j: nat, t: nat :: j < g.m && t < PAGE ==> HonestByte(g, code, c, sh, j, t)
  }

  ghost predicate HonestByte(g: Geom, code: Code, c: Content, sh: Stripe, j: nat, t: nat)
    requires 1 <= g.k && 1 <= g.m
  {
    j * PAGE + t < |sh.pp| && sh.pp[j * PAGE + t] == Rest(g, code, c, sh, j, t)
  }

  /** the columns the write leaves alone hold what they held */
  ghost predicate RestKept(g: Geom, before: Content, now: Content, sh: Stripe)
    requires g.Valid()
  {
    forall col: nat, t: nat :: col < g.k && t < PAGE && !Modified(sh, col) ==>
      DataAt(g, now, sh, col, t) == DataAt(g, before, sh, col, t)
  }

  /** Every byte of a stopped unit's rows is as before the writes, or as some
      of the logged writes left it: nothing is said of the modified columns and
      of parity. */
  ghost predicate Torn(g: Geom, code: Code, stripes: seq<Stripe>, before: Content, now: Content)
    requires AllOk(g, stripes)
  {
    forall i: nat :: i < |stripes| ==>
      StripeOk(g, stripes[i]) && Honest(g, code, before, stripes[i]) && RestKept(g, before, now, stripes[i])
  }

  /** parities of sh that can be written encode its data */
  ghost predicate Sound(g: Geom, code: Code, members: seq<Member>, c: Content, sh: Stripe)
    requires Ready(g, members)
  {
    forall j: nat, t: nat :: j < g.m && t < PAGE ==> SoundByte(g, code, members, c, sh, j, t)
  }

  ghost predicate SoundByte(g: Geom, code: Code, members: seq<Member>, c: Content, sh: Stripe, j: nat, t: nat)
    requires Ready(g, members)
  {
    var slot := ParitySlot(g, PdIdx(g, sh.row), j);
    slot < |members| && (Writable(members[slot]) ==> ParityAt(g, c, sh, j, t) == Right(g, code, c, sh, j, t))
  }

  /** a unit holds a row page once: it is not logged again before its write ends */
  ghost predicate Distinct(stripes: seq<Stripe>) {
    forall a: nat, b: nat :: a < b < |stripes| ==> stripes[a].row != stripes[b].row || stripes[a].off != stripes[b].off
  }

  // ---- linearity ----

  lemma Regroup4(a: bv8, b: bv8, x: bv8, y: bv8)
    ensures (a ^ x) ^ (b ^ y) == (a ^ b) ^ (x ^ y)
  {
  }

  /** encoding splits over XOR */
  lemma {:induction false} EncodeSplit(code: Code, j: nat, a: nat -> bv8, b: nat -> bv8, c: nat -> bv8, k: nat)
    requires Linear(code)
    requires forall i: nat :: i < k ==> c(i) == a(i) ^ b(i)
    ensures Encode(code, j, a, k) ^ Encode(code, j, b, k) == Encode(code, j, c, k)
  {
    if k > 0 {
      EncodeSplit(code, j, a, b, c, k - 1);
      var i := k - 1;
      Regroup4(Encode(code, j, a, i), Encode(code, j, b, i), code(j, i, a(i)), code(j, i, b(i)));
    }
  }

  /** The partial parity a read-modify-write leaves, old parity with the old
      modified data taken out, is the one a reconstruct-write computes. */
  lemma EitherPartialParity(g: Geom, code: Code, c: Content, sh: Stripe, j: nat, t: nat)
    requires Linear(code) && StripeOk(g, sh) && j < g.m && t < PAGE
    requires ParityAt(g, c, sh, j, t) == Right(g, code, c, sh, j, t)
    ensures ParityAt(g, c, sh, j, t)
            ^ Encode(code, j, (col: nat) => if Modified(sh, col) then DataAt(g, c, sh, col, t) else 0, g.k)
         == Rest(g, code, c, sh, j, t)
  {
    var all := (col: nat) => DataAt(g, c, sh, col, t);
    var mods := (col: nat) => if Modified(sh, col) then DataAt(g, c, sh, col, t) else 0;
    var rest := (col: nat) => if Modified(sh, col) then 0 else DataAt(g, c, sh, col, t);
    EncodeSplit(code, j, all, mods, rest, g.k);
  }

  /** What recovery writes is the parity of the data then on the members,
      whatever the modified columns hold. */
  lemma WantedIsRight(g: Geom, code: Code, before: Content, now: Content, sh: Stripe, j: nat, t: nat)
    requires Linear(code) && StripeOk(g, sh) && j < g.m && t < PAGE
    requires Honest(g, code, before, sh) && RestKept(g, before, now, sh)
    ensures Wanted(g, code, now, sh, j, t) == Right(g, code, now, sh, j, t)
  {
    if sh.full {
      FullIsRight(g, code, now, sh, j, t);
    } else {
      assert HonestByte(g, code, before, sh, j, t);
      RestSame(g, code, before, now, sh, j, t);
      PartialIsRight(g, code, now, sh, j, t);
    }
  }

  lemma FullIsRight(g: Geom, code: Code, now: Content, sh: Stripe, j: nat, t: nat)
    requires StripeOk(g, sh) && j < g.m && t < PAGE && sh.full
    ensures Wanted(g, code, now, sh, j, t) == Right(g, code, now, sh, j, t)
  {
    var mods := (col: nat) => if Modified(sh, col) then At(now, CellSlot(g, sh, col), SectorOf(g, sh) + t) else 0;
    EncodeSame(code, j, mods, (col: nat) => DataAt(g, now, sh, col, t), g.k);
  }

  lemma RestSame(g: Geom, code: Code, before: Content, now: Content, sh: Stripe, j: nat, t: nat)
    requires StripeOk(g, sh) && t < PAGE && RestKept(g, before, now, sh)
    ensures Rest(g, code, before, sh, j, t) == Rest(g, code, now, sh, j, t)
  {
    var rest := (col: nat) => if Modified(sh, col) then 0 else DataAt(g, now, sh, col, t);
    var was := (col: nat) => if Modified(sh, col) then 0 else DataAt(g, before, sh, col, t);
    EncodeSame(code, j, rest, was, g.k);
  }

  lemma PartialIsRight(g: Geom, code: Code, now: Content, sh: Stripe, j: nat, t: nat)
    requires Linear(code) && StripeOk(g, sh) && j < g.m && t < PAGE && !sh.full
    requires HonestByte(g, code, now, sh, j, t)
    ensures Wanted(g, code, now, sh, j, t) == Right(g, code, now, sh, j, t)
  {
    var all := (col: nat) => DataAt(g, now, sh, col, t);
    var mods := (col: nat) => if Modified(sh, col) then At(now, CellSlot(g, sh, col), SectorOf(g, sh) + t) else 0;
    var rest := (col: nat) => if Modified(sh, col) then 0 else DataAt(g, now, sh, col, t);
    assert sh.pp[j * PAGE + t] == Encode(code, j, rest, g.k);
    assert Wanted(g, code, now, sh, j, t) == Encode(code, j, mods, g.k) ^ sh.pp[j * PAGE + t];
    assert forall i: nat :: i < g.k ==> all(i) == mods(i) ^ rest(i);
    hide Wanted, StripeOk, HonestByte;
    EncodeSplit(code, j, mods, rest, all, g.k);
  }

  // ---- from cells to rows ----

  lemma ParityCellCovered(g: Geom, members: seq<Member>, sh: Stripe, j: nat, t: nat)
    requires Ready(g, members) && StripeOk(g, sh) && j < g.m && t < PAGE
    requires AllReadable(g, members, sh)
    ensures ParitySlot(g, PdIdx(g, sh.row), j) < |members| && PdIdx(g, sh.row) < g.N()
    ensures Rel(g, PdIdx(g, sh.row), ParitySlot(g, PdIdx(g, sh.row), j)) == j
    ensures Writable(members[ParitySlot(g, PdIdx(g, sh.row), j)])
        ==> Covers(g, members, sh, ParitySlot(g, PdIdx(g, sh.row), j), SectorOf(g, sh) + t)
  {
    PdInRange(g, sh.row);
    ParityRel(g, PdIdx(g, sh.row), j, ParitySlot(g, PdIdx(g, sh.row), j));
  }

  /** In a unit of distinct rows, row i's parities are the ones wanted for it. */
  lemma {:induction false} RowInUnit(g: Geom, code: Code, members: seq<Member>, stripes: seq<Stripe>, now: Content,
          i: nat, j: nat, t: nat)
    requires Ready(g, members) && AllOk(g, stripes) && PagesOk(g, stripes) && Distinct(stripes)
    requires i < |stripes| && j < g.m && t < PAGE && AllReadable(g, members, stripes[i])
    ensures StripeOk(g, stripes[i]) && ParitySlot(g, PdIdx(g, stripes[i].row), j) < |members|
    ensures Writable(members[ParitySlot(g, PdIdx(g, stripes[i].row), j)])
        ==> (Cell(g, code, members, stripes, now, ParitySlot(g, PdIdx(g, stripes[i].row), j), SectorOf(g, stripes[i]) + t)
             == Wanted(g, code, now, stripes[i], j, t))
  {
    var sh, last, init := stripes[i], stripes[|stripes| - 1], stripes[..|stripes| - 1];
    assert StripeOk(g, sh) && StripeOk(g, last);
    ParityCellCovered(g, members, sh, j, t);
    if i < |stripes| - 1 {
      assert AllOk(g, init) && PagesOk(g, init) && Distinct(init);
      RowInUnit(g, code, members, init, now, i, j, t);
      if InPage(g, last, SectorOf(g, sh) + t) {
        PagesApart(g, last, sh, SectorOf(g, sh) + t);
        assert false;
      }
    }
  }

  /** the data of a logged row after recovery is the data at the stop */
  lemma DataKept(g: Geom, code: Code, members: seq<Member>, stripes: seq<Stripe>, now: Content, after: Content,
          sh: Stripe, col: nat, t: nat)
    requires Ready(g, members) && AllOk(g, stripes) && PagesOk(g, stripes) && StripeOk(g, sh)
    requires Result(g, code, members, stripes, now, after) && col < g.k && t < PAGE
    ensures DataAt(g, after, sh, col, t) == DataAt(g, now, sh, col, t)
  {
    DataStays(g, code, members, stripes, now, sh, col, t);
  }

  lemma RightSame(g: Geom, code: Code, a: Content, b: Content, sh: Stripe, j: nat, t: nat)
    requires 1 <= g.k && 1 <= g.m
    requires forall col: nat :: col < g.k ==> DataAt(g, a, sh, col, t) == DataAt(g, b, sh, col, t)
    ensures Right(g, code, a, sh, j, t) == Right(g, code, b, sh, j, t)
  {
    EncodeSame(code, j, (col: nat) => DataAt(g, a, sh, col, t), (col: nat) => DataAt(g, b, sh, col, t), g.k);
  }

  lemma RowSound(g: Geom, code: Code, members: seq<Member>, stripes: seq<Stripe>, before: Content, now: Content,
          after: Content, i: nat, j: nat, t: nat)
    requires Ready(g, members) && Linear(code) && AllOk(g, stripes) && PagesOk(g, stripes) && Distinct(stripes)
    requires Torn(g, code, stripes, before, now) && Result(g, code, members, stripes, now, after)
    requires i < |stripes| && AllReadable(g, members, stripes[i]) && j < g.m && t < PAGE
    ensures SoundByte(g, code, members, after, stripes[i], j, t)
  {
    var sh := stripes[i];
    RowInUnit(g, code, members, stripes, now, i, j, t);
    WantedIsRight(g, code, before, now, sh, j, t);
    forall col: nat | col < g.k
      ensures DataAt(g, after, sh, col, t) == DataAt(g, now, sh, col, t)
    {
      DataKept(g, code, members, stripes, now, after, sh, col, t);
    }
    RightSame(g, code, after, now, sh, j, t);
  }

  /** Recovery of the unit's log. */
  ghost function Recovered(g: Geom, code: Code, members: seq<Member>, unit0: nat, io: IoUnit, now: Content): Outcome
    requires Ready(g, members) && 1 <= unit0
  {
    EntriesFrom(g, code, members, PpOf(io.stripes), unit0, StoredAll(unit0, io.entries), 0, 0, now)
  }

  lemma RecoveredIs(g: Geom, code: Code, members: seq<Member>, unit0: nat, io: IoUnit, groups: seq<seq<Stripe>>,
          now: Content)
    requires Ready(g, members) && UnitOk(g, io, groups) && 1 <= unit0 && BlockOk(unit0) && AllUniform(groups)
    ensures AllOk(g, io.stripes) && PagesOk(g, io.stripes)
    ensures Recovered(g, code, members, unit0, io, now).sane
    ensures Result(g, code, members, io.stripes, now, Recovered(g, code, members, unit0, io, now).content)
  {
    assert groups[..0] == [] && Join([]) == [] && PpOf([]) == [];
    assert groups[..|groups|] == groups;
    assert Result(g, code, members, [], now, now);
    JoinOk(g, io, groups, |groups|);
    EntriesAre(g, code, members, unit0, io, groups, 0, 0, now, now);
  }

  /** The write hole is closed. Whatever part of the unit's data and parity
      writes had reached the members, after recovery every logged row whose
      modified members can be read has parities that encode its data. */
  lemma HoleClosed(g: Geom, code: Code, members: seq<Member>, unit0: nat, io: IoUnit, groups: seq<seq<Stripe>>,
          before: Content, now: Content)
    requires Ready(g, members) && UnitOk(g, io, groups) && 1 <= unit0 && BlockOk(unit0) && AllUniform(groups)
    requires Linear(code) && Distinct(io.stripes)
    requires AllOk(g, io.stripes) && Torn(g, code, io.stripes, before, now)
    ensures Recovered(g, code, members, unit0, io, now).sane
    ensures forall i: nat :: i < |io.stripes| && AllReadable(g, members, io.stripes[i]) ==>
              Sound(g, code, members, Recovered(g, code, members, unit0, io, now).content, io.stripes[i])
  {
    var after := Recovered(g, code, members, unit0, io, now).content;
    RecoveredIs(g, code, members, unit0, io, groups, now);
    forall i: nat, j: nat, t: nat | i < |io.stripes| && AllReadable(g, members, io.stripes[i]) && j < g.m && t < PAGE
      ensures SoundByte(g, code, members, after, io.stripes[i], j, t)
    {
      RowSound(g, code, members, io.stripes, before, now, after, i, j, t);
    }
  }

  /** Recovery writes only parity of logged rows whose modified members can be
      read: a row with one missing is left alone. */
  lemma OnlyParityWritten(g: Geom, code: Code, members: seq<Member>, unit0: nat, io: IoUnit,
          groups: seq<seq<Stripe>>, now: Content, slot: nat, q: nat)
    requires Ready(g, members) && UnitOk(g, io, groups) && 1 <= unit0 && BlockOk(unit0) && AllUniform(groups)
    requires At(Recovered(g, code, members, unit0, io, now).content, slot, q) != At(now, slot, q)
    ensures exists i: nat :: i < |io.stripes| && Covers(g, members, io.stripes[i], slot, q)
  {
    RecoveredIs(g, code, members, unit0, io, groups, now);
    UncoveredStays(g, code, members, io.stripes, now, slot, q);
  }

  lemma {:induction false} UncoveredStays(g: Geom, code: Code, members: seq<Member>, stripes: seq<Stripe>,
          now: Content, slot: nat, q: nat)
    requires Ready(g, members) && PagesOk(g, stripes)
    ensures (exists i: nat :: i < |stripes| && Covers(g, members, stripes[i], slot, q))
         || Cell(g, code, members, stripes, now, slot, q) == At(now, slot, q)
  {
    if stripes != [] {
      var init := stripes[..|stripes| - 1];
      UncoveredStays(g, code, members, init, now, slot, q);
      if i: nat :| i < |init| && Covers(g, members, init[i], slot, q) {
        assert Covers(g, members, stripes[i], slot, q);
      }
    }
  }

  // ---- a mixed entry leaves a hole ----

  predicate ParityCell(g: Geom, sh: Stripe, slot: nat, q: nat)
    requires 1 <= g.k
  {
    && PdIdx(g, sh.row) < g.N()
    && slot < g.N()
    && IsParity(g, PdIdx(g, sh.row), slot)
    && InPage(g, sh, q)
  }

  /** rows of an entry that recovery visits */
  function VisitedRows(rows: seq<Stripe>): nat {
    if Partials(rows) == 0 then |rows| else Partials(rows)
  }

  /** an entry of either kind is decoded to the right place in whole pages */
  lemma DecodedPlace(g: Geom, unit0: nat, e: Entry, rows: seq<Stripe>)
    requires Describes(g, e, rows) && 1 <= unit0 && BlockOk(unit0)
    ensures var d := Decode(g, unit0, Stored(unit0, e));
            d.first == DataSector(g, rows[0]) && 1 <= d.unit == PAGE && d.strip == VisitedRows(rows) * PAGE
    ensures VisitedRows(rows) <= |rows|
  {
    PartialsBound(rows);
    if Uniform(rows) {
      UniformDecodes(g, unit0, e, rows);
    } else {
      MixedPlace(g, unit0, e, rows);
    }
  }

  lemma MixedShape(g: Geom, unit0: nat, e: Entry, rows: seq<Stripe>, d: Decoded)
    requires Describes(g, e, rows) && 1 <= unit0 && BlockOk(unit0) && !Uniform(rows)
    requires d == Decode(g, unit0, Stored(unit0, e))
    ensures d.first == DataSector(g, rows[0]) && d.strip == VisitedRows(rows) * PAGE
    ensures d.first % PAGE == 0 && g.chunk % PAGE == 0
    ensures d.last == d.first + (d.disks - 1) * g.chunk + VisitedRows(rows) * PAGE
  {
    PartialsBound(rows);
    PlaceSurvives(g, unit0, e, rows);
    SizesDecode(g, e, rows);
    RowsFit(g, e, rows);
  }

  lemma DescribedGeom(g: Geom, e: Entry, rows: seq<Stripe>)
    requires Describes(g, e, rows)
    ensures g.Valid() && 1 <= g.k && 1 <= g.m && 1 <= g.chunk
    ensures forall b: nat :: b < |rows| ==> StripeOk(g, rows[b])
  {
  }

  lemma MixedUnit(g: Geom, unit0: nat, e: Entry)
    requires g.Valid() && 1 <= unit0 && BlockOk(unit0)
    ensures var d := Decode(g, unit0, e);
            d.first % PAGE == 0 && d.last % PAGE == 0 ==> d.unit == PAGE
  {
  }

  lemma MixedPlace(g: Geom, unit0: nat, e: Entry, rows: seq<Stripe>)
    requires Describes(g, e, rows) && 1 <= unit0 && BlockOk(unit0) && !Uniform(rows)
    ensures var d := Decode(g, unit0, Stored(unit0, e));
            d.first == DataSector(g, rows[0]) && d.unit == PAGE && d.strip == VisitedRows(rows) * PAGE
  {
    hide *;
    DescribedGeom(g, e, rows);
    var d := Decode(g, unit0, Stored(unit0, e));
    MixedShape(g, unit0, e, rows, d);
    LastAligned(d.first, d.disks, g.chunk, VisitedRows(rows));
    MixedUnit(g, unit0, Stored(unit0, e));
  }

  lemma LastAligned(first: nat, disks: nat, chunk: nat, q: nat)
    requires first % PAGE == 0 && chunk % PAGE == 0
    ensures (first + (disks - 1) * chunk + q * PAGE) % PAGE == 0
  {
    var c := chunk / PAGE;
    assert (disks - 1) * chunk == ((disks - 1) * c) * PAGE;
    assert first + (disks - 1) * chunk + q * PAGE == (first / PAGE + (disks - 1) * c + q) * PAGE;
    MultipleOf(first / PAGE + (disks - 1) * c + q);
  }

  lemma MultipleOf(x: int)
    ensures (x * PAGE) % PAGE == 0
  {
  }

  /** writes of one block row stay in its parity cells */
  lemma {:induction false} ParitiesFrame(g: Geom, members: seq<Member>, c: Content, pd: nat, sector: nat,
          par: nat -> seq<bv8>, slot: nat, q: nat)
    requires Ready(g, members) && pd < g.N()
    requires forall x: nat :: |par(x)| == PAGE
    requires !(slot < g.N() && IsParity(g, pd, slot) && sector <= q < sector + PAGE)
    ensures At(Parities(g, members, c, pd, sector, par, g.m), slot, q) == At(c, slot, q)
  {
    ParitiesAt(g, members, c, pd, sector, par, g.m, slot, q);
  }

  lemma RowFrame(g: Geom, code: Code, members: seq<Member>, log: seq<bv8>, pos: nat, e: Entry, rows: seq<Stripe>,
          e': Entry, d: Decoded, b: nat, c: Content, slot: nat, q: nat)
    requires Ready(g, members) && Describes(g, e, rows) && b < |rows|
    requires e' == e.(dataSector := e'.dataSector)
    requires d.first == DataSector(g, rows[0]) && 1 <= d.unit == PAGE
    requires !ParityCell(g, rows[b], slot, q)
    ensures var out := RowDone(g, code, members, log, pos, e', d, b * PAGE, c);
            out.sane && At(out.content, slot, q) == At(c, slot, q)
  {
    hide *;
    DescribedGeom(g, e, rows);
    ReadyShape(g, members);
    RowAt(g, e, rows, d, b);
    var pd := PdIdx(g, rows[b].row);
    var got := Gather(g, members, c, d, pd, b * PAGE, 0, Gathered(false, map[]));
    var par := (j: nat) => Rebuilt(g, code, log, pos, PerParity(g, e'), PAGE, b, got.pages, j);
    RowUnfolds(g, code, members, log, pos, e', d, b, c, got, par);
    CellOut(g, rows[b], slot, q);
    ParitiesFrame(g, members, c, pd, SectorOf(g, rows[b]), par, slot, q);
  }

  lemma ReadyShape(g: Geom, members: seq<Member>)
    requires Ready(g, members)
    ensures |members| == g.N() && g.Valid() && 1 <= g.k && 1 <= g.m && 1 <= g.N() && 0 < PAGE
  {
  }

  lemma CellOut(g: Geom, sh: Stripe, slot: nat, q: nat)
    requires g.Valid() && !ParityCell(g, sh, slot, q)
    ensures PdIdx(g, sh.row) < g.N()
    ensures !(slot < g.N() && IsParity(g, PdIdx(g, sh.row), slot) && SectorOf(g, sh) <= q < SectorOf(g, sh) + PAGE)
  {
    PdInRange(g, sh.row);
  }

  /** the cell is not parity of a visited row from row b on */
  ghost predicate Apart(g: Geom, rows: seq<Stripe>, b: nat, slot: nat, q: nat)
    requires 1 <= g.k
  {
    forall x: nat :: b <= x < VisitedRows(rows) && x < |rows| ==> !ParityCell(g, rows[x], slot, q)
  }

  lemma {:induction false} RowsFrame(g: Geom, code: Code, members: seq<Member>, log: seq<bv8>, pos: nat, e: Entry,
          rows: seq<Stripe>, e': Entry, d: Decoded, b: nat, c: Content, slot: nat, q: nat)
    requires Ready(g, members) && Describes(g, e, rows) && b <= VisitedRows(rows) <= |rows|
    requires e' == e.(dataSector := e'.dataSector)
    requires d.first == DataSector(g, rows[0]) && 1 <= d.unit == PAGE && d.strip == VisitedRows(rows) * PAGE
    requires Apart(g, rows, b, slot, q)
    ensures var out := RowsFrom(g, code, members, log, pos, e', d, b * PAGE, c);
            out.sane && At(out.content, slot, q) == At(c, slot, q)
    decreases |rows| - b
  {
    hide *;
    RowStep(g, code, members, log, pos, e', d, b * PAGE, c);
    DescribedGeom(g, e, rows);
    StripStep(b, VisitedRows(rows));
    if b < VisitedRows(rows) {
      ApartStep(g, rows, b, slot, q);
      RowFrame(g, code, members, log, pos, e, rows, e', d, b, c, slot, q);
      var row := RowDone(g, code, members, log, pos, e', d, b * PAGE, c);
      RowsFrame(g, code, members, log, pos, e, rows, e', d, b + 1, row.content, slot, q);
    }
  }

  lemma StripStep(b: nat, n: nat)
    ensures b * PAGE < n * PAGE <==> b < n
    ensures (b + 1) * PAGE == b * PAGE + PAGE
  {
  }

  lemma ApartStep(g: Geom, rows: seq<Stripe>, b: nat, slot: nat, q: nat)
    requires 1 <= g.k && Apart(g, rows, b, slot, q) && b < VisitedRows(rows) && b < |rows|
    ensures !ParityCell(g, rows[b], slot, q) && Apart(g, rows, b + 1, slot, q)
  {
  }

  /** A cell that is parity of no visited row comes through recovery unchanged. */
  lemma {:induction false} EntriesFrame(g: Geom, code: Code, members: seq<Member>, unit0: nat, io: IoUnit,
          groups: seq<seq<Stripe>>, i: nat, pos: nat, c: Content, slot: nat, q: nat)
    requires Ready(g, members) && UnitOk(g, io, groups) && 1 <= unit0 && BlockOk(unit0)
    requires i <= |groups| && 1 <= g.k
    requires pos == |PpOf(Join(groups[..i]))|
    requires forall x: nat :: x < |groups| ==> Apart(g, groups[x], 0, slot, q)
    ensures var out := EntriesFrom(g, code, members, PpOf(io.stripes), unit0, StoredAll(unit0, io.entries), i, pos, c);
            out.sane && At(out.content, slot, q) == At(c, slot, q)
    decreases |groups| - i
  {
    hide *;
    UnitShape(g, io, groups);
    EntryStep(g, code, members, PpOf(io.stripes), unit0, StoredAll(unit0, io.entries), i, pos, c);
    if i < |groups| {
      EntryFrame(g, code, members, unit0, io, groups, i, pos, c, slot, q);
      var e := Stored(unit0, io.entries[i]);
      var out := RowsFrom(g, code, members, PpOf(io.stripes), pos, e, Decode(g, unit0, e), 0, c);
      EntriesFrame(g, code, members, unit0, io, groups, i + 1, pos + e.ppSize / 512, out.content, slot, q);
    }
  }

  lemma EntryFrame(g: Geom, code: Code, members: seq<Member>, unit0: nat, io: IoUnit, groups: seq<seq<Stripe>>,
          i: nat, pos: nat, c: Content, slot: nat, q: nat)
    requires Ready(g, members) && UnitOk(g, io, groups) && 1 <= unit0 && BlockOk(unit0) && 1 <= g.k
    requires i < |groups| && pos == |PpOf(Join(groups[..i]))|
    requires Apart(g, groups[i], 0, slot, q)
    ensures var e := Stored(unit0, io.entries[i]);
            && LogSlice(PpOf(io.stripes), pos, e.ppSize / 512) == e.checked
            && pos + e.ppSize / 512 == |PpOf(Join(groups[..i + 1]))|
            && 1 <= Decode(g, unit0, e).unit
    ensures var e := Stored(unit0, io.entries[i]);
            var out := RowsFrom(g, code, members, PpOf(io.stripes), pos, e, Decode(g, unit0, e), 0, c);
            out.sane && At(out.content, slot, q) == At(c, slot, q)
  {
    var rows, e := groups[i], io.entries[i];
    var e' := Stored(unit0, e);
    assert Describes(g, e, rows) && io.stripes == Join(groups);
    assert e' == e.(dataSector := e'.dataSector) && 0 * PAGE == 0;
    hide *;
    PpPlaced(groups, i);
    SealMatches(g, e, rows, PpOf(io.stripes), pos);
    DecodedPlace(g, unit0, e, rows);
    RowsFrame(g, code, members, PpOf(io.stripes), pos, e, rows, e', Decode(g, unit0, e'), 0, c, slot, q);
  }

  /** row b of entry i among the unit's stripes */
  ghost function Nth(groups: seq<seq<Stripe>>, i: nat, b: nat): nat
    requires i < |groups|
  {
    |Join(groups[..i])| + b
  }

  lemma {:induction false} NthIs(groups: seq<seq<Stripe>>, i: nat, b: nat)
    requires i < |groups| && b < |groups[i]|
    ensures Nth(groups, i, b) < |Join(groups)|
    ensures Join(groups)[Nth(groups, i, b)] == groups[i][b]
  {
    var n := |groups|;
    var init := groups[..n - 1];
    if i < n - 1 {
      NthIs(init, i, b);
      assert init[..i] == groups[..i];
    }
  }

  lemma {:induction false} NthApart(groups: seq<seq<Stripe>>, i: nat, b: nat, i': nat)
    requires i < i' < |groups| && b < |groups[i]|
    ensures Nth(groups, i, b) < |Join(groups[..i'])|
  {
    var init := groups[..i'];
    NthIs(init, i, b);
    assert init[..i] == groups[..i];
  }

  /** in a unit of distinct rows two rows share no page */
  lemma RowsApart(g: Geom, io: IoUnit, groups: seq<seq<Stripe>>, i: nat, b: nat, i': nat, b': nat, q: nat)
    requires UnitOk(g, io, groups) && Distinct(io.stripes)
    requires i < |groups| && b < |groups[i]| && i' < |groups| && b' < |groups[i']|
    requires i != i' || b != b'
    requires InPage(g, groups[i][b], q)
    ensures !InPage(g, groups[i'][b'], q)
  {
    NthIs(groups, i, b);
    NthIs(groups, i', b');
    if i < i' {
      NthApart(groups, i, b, i');
    } else if i' < i {
      NthApart(groups, i', b', i);
    }
    assert Describes(g, io.entries[i], groups[i]) && Describes(g, io.entries[i'], groups[i']);
    if InPage(g, groups[i'][b'], q) {
      PagesApart(g, groups[i][b], groups[i'][b'], q);
      assert false;
    }
  }

  /** a data cell of a logged row, and the parity of a row recovery skips, lie
      apart from everything recovery writes */
  lemma SkippedApart(g: Geom, io: IoUnit, groups: seq<seq<Stripe>>, i: nat, b: nat, slot: nat, q: nat)
    requires UnitOk(g, io, groups) && Distinct(io.stripes) && 1 <= g.k
    requires i < |groups| && VisitedRows(groups[i]) <= b < |groups[i]|
    requires InPage(g, groups[i][b], q)
    ensures forall x: nat :: x < |groups| ==> Apart(g, groups[x], 0, slot, q)
  {
    forall x: nat, y: nat | x < |groups| && y < VisitedRows(groups[x]) && y < |groups[x]|
      ensures !ParityCell(g, groups[x][y], slot, q)
    {
      RowsApart(g, io, groups, i, b, x, y, q);
    }
  }

  /** every page of a skipped row comes through recovery as it was */
  lemma SkippedStays(g: Geom, code: Code, members: seq<Member>, unit0: nat, io: IoUnit, groups: seq<seq<Stripe>>,
          i: nat, b: nat, now: Content, slot: nat, t: nat)
    requires Ready(g, members) && UnitOk(g, io, groups) && 1 <= unit0 && BlockOk(unit0) && Distinct(io.stripes)
    requires i < |groups| && VisitedRows(groups[i]) <= b < |groups[i]| && t < PAGE
    ensures At(Recovered(g, code, members, unit0, io, now).content, slot, SectorOf(g, groups[i][b]) + t)
         == At(now, slot, SectorOf(g, groups[i][b]) + t)
  {
    assert groups[..0] == [] && |PpOf(Join([]))| == 0;
    SkippedApart(g, io, groups, i, b, slot, SectorOf(g, groups[i][b]) + t);
    EntriesFrame(g, code, members, unit0, io, groups, 0, 0, now, slot, SectorOf(g, groups[i][b]) + t);
  }

  ghost predicate AllPresent(members: seq<Member>) {
    forall i: nat :: i < |members| ==> members[i].Present? && members[i].inSync && !members[i].faulty
  }

  /** recovery repairs every row for every way the writes can be torn */
  ghost predicate Closes(g: Geom, code: Code, members: seq<Member>, unit0: nat, io: IoUnit)
    requires Ready(g, members) && 1 <= unit0 && AllOk(g, io.stripes)
  {
    forall before: Content, now: Content :: Torn(g, code, io.stripes, before, now) ==>
      Repaired(g, code, members, io.stripes, Recovered(g, code, members, unit0, io, now))
  }

  ghost predicate Repaired(g: Geom, code: Code, members: seq<Member>, stripes: seq<Stripe>, out: Outcome)
    requires Ready(g, members)
  {
    && out.sane
    && (forall i: nat :: i < |stripes| && AllReadable(g, members, stripes[i]) ==>
          Sound(g, code, members, out.content, stripes[i]))
  }

  /** the stop that recovery cannot repair: one byte of a skipped row's first
      parity had not been written yet */
  function Flipped(c: Content, slot: nat, q: nat, right: bv8): Content {
    c[(slot, q) := right ^ 1]
  }

  lemma FlippedIsTorn(g: Geom, code: Code, stripes: seq<Stripe>, before: Content, sh: Stripe, right: bv8)
    requires AllOk(g, stripes) && StripeOk(g, sh) && Torn(g, code, stripes, before, before)
    ensures Torn(g, code, stripes, before, Flipped(before, ParitySlot(g, PdIdx(g, sh.row), 0), SectorOf(g, sh), right))
  {
    var slot := ParitySlot(g, PdIdx(g, sh.row), 0);
    var now := Flipped(before, slot, SectorOf(g, sh), right);
    forall i: nat, col: nat, t: nat | i < |stripes| && col < g.k && t < PAGE
      ensures DataAt(g, now, stripes[i], col, t) == DataAt(g, before, stripes[i], col, t)
    {
      FlipMissesData(g, stripes[i], col, t, sh);
    }
  }

  lemma FlipMissesData(g: Geom, a: Stripe, col: nat, t: nat, sh: Stripe)
    requires StripeOk(g, a) && StripeOk(g, sh) && col < g.k && t < PAGE
    ensures CellSlot(g, a, col) != ParitySlot(g, PdIdx(g, sh.row), 0) || SectorOf(g, a) + t != SectorOf(g, sh)
  {
    if SectorOf(g, a) + t == SectorOf(g, sh) {
      PagesApart(g, a, sh, SectorOf(g, sh));
      PdInRange(g, sh.row);
      DataSlotIndex(g, PdIdx(g, sh.row), col);
      ParitySlotIndex(g, PdIdx(g, sh.row), 0);
    }
  }

  lemma PresentReadable(g: Geom, members: seq<Member>, sh: Stripe)
    requires Ready(g, members) && StripeOk(g, sh) && AllPresent(members)
    ensures AllReadable(g, members, sh)
    ensures ParitySlot(g, PdIdx(g, sh.row), 0) < |members| && Writable(members[ParitySlot(g, PdIdx(g, sh.row), 0)])
  {
    PdInRange(g, sh.row);
    forall col: nat | Modified(sh, col)
      ensures ColumnReadable(g, members, sh, col)
    {
      DataSlotIndex(g, PdIdx(g, sh.row), col);
    }
    ParitySlotIndex(g, PdIdx(g, sh.row), 0);
  }

  /** the flipped parity survives recovery while the data it should encode
      stays */
  lemma FlipSurvives(g: Geom, code: Code, members: seq<Member>, unit0: nat, io: IoUnit, groups: seq<seq<Stripe>>,
          before: Content, i: nat, b: nat)
    requires Ready(g, members) && UnitOk(g, io, groups) && 1 <= unit0 && BlockOk(unit0) && Distinct(io.stripes)
    requires i < |groups| && VisitedRows(groups[i]) <= b < |groups[i]| && StripeOk(g, groups[i][b])
    ensures 1 <= g.k && 1 <= g.m
    ensures var sh := groups[i][b];
            var right := Right(g, code, before, sh, 0, 0);
            var now := Flipped(before, ParitySlot(g, PdIdx(g, sh.row), 0), SectorOf(g, sh), right);
            var after := Recovered(g, code, members, unit0, io, now).content;
            && ParityAt(g, after, sh, 0, 0) == right ^ 1
            && Right(g, code, after, sh, 0, 0) == right
  {
    hide *;
    ReadyShape(g, members);
    var sh := groups[i][b];
    var slot, sector, right := ParitySlot(g, PdIdx(g, sh.row), 0), SectorOf(g, sh), Right(g, code, before, sh, 0, 0);
    var now := Flipped(before, slot, sector, right);
    var after := Recovered(g, code, members, unit0, io, now).content;
    SkippedStays(g, code, members, unit0, io, groups, i, b, now, slot, 0);
    FlippedParity(g, before, after, sh, right);
    forall col: nat | col < g.k
      ensures DataAt(g, after, sh, col, 0) == DataAt(g, before, sh, col, 0)
    {
      SkippedStays(g, code, members, unit0, io, groups, i, b, now, CellSlot(g, sh, col), 0);
      FlippedData(g, before, after, sh, right, col);
    }
    RightSame(g, code, after, before, sh, 0, 0);
  }

  lemma FlippedParity(g: Geom, before: Content, after: Content, sh: Stripe, right: bv8)
    requires 1 <= g.k && 1 <= g.m
    requires (var slot := ParitySlot(g, PdIdx(g, sh.row), 0);
              At(after, slot, SectorOf(g, sh) + 0) == At(Flipped(before, slot, SectorOf(g, sh), right), slot, SectorOf(g, sh) + 0))
    ensures ParityAt(g, after, sh, 0, 0) == right ^ 1
  {
  }

  lemma FlippedData(g: Geom, before: Content, after: Content, sh: Stripe, right: bv8, col: nat)
    requires StripeOk(g, sh) && col < g.k && 1 <= g.k && 1 <= g.m
    requires At(after, CellSlot(g, sh, col), SectorOf(g, sh) + 0)
          == At(Flipped(before, ParitySlot(g, PdIdx(g, sh.row), 0), SectorOf(g, sh), right), CellSlot(g, sh, col), SectorOf(g, sh) + 0)
    ensures DataAt(g, after, sh, col, 0) == DataAt(g, before, sh, col, 0)
  {
    FlipMissesData(g, sh, col, 0, sh);
    FlippedElsewhere(before, ParitySlot(g, PdIdx(g, sh.row), 0), SectorOf(g, sh), right, CellSlot(g, sh, col));
  }

  lemma NotRepaired(g: Geom, code: Code, members: seq<Member>, stripes: seq<Stripe>, out: Outcome, n: nat, right: bv8)
    requires Ready(g, members) && n < |stripes| && StripeOk(g, stripes[n]) && AllPresent(members)
    requires ParityAt(g, out.content, stripes[n], 0, 0) == right ^ 1
    requires Right(g, code, out.content, stripes[n], 0, 0) == right
    ensures !Repaired(g, code, members, stripes, out)
  {
    PresentReadable(g, members, stripes[n]);
    assert !SoundByte(g, code, members, out.content, stripes[n], 0, 0);
  }

  /** A mixed entry leaves a stop that recovery does not repair. */
  lemma MixedLeavesHole(g: Geom, code: Code, members: seq<Member>, unit0: nat, io: IoUnit, groups: seq<seq<Stripe>>,
          before: Content, i: nat)
    requires Ready(g, members) && UnitOk(g, io, groups) && 1 <= unit0 && BlockOk(unit0) && Distinct(io.stripes)
    requires AllOk(g, io.stripes) && Torn(g, code, io.stripes, before, before) && AllPresent(members)
    requires i < |groups| && !Uniform(groups[i])
    ensures !Closes(g, code, members, unit0, io)
  {
    hide *;
    ReadyShape(g, members);
    MixedTail(g, io, groups, i);
    UnitShape(g, io, groups);
    var rows := groups[i];
    var b: nat := |rows| - 1;
    var sh := rows[b];
    var right := Right(g, code, before, sh, 0, 0);
    var now := Flipped(before, ParitySlot(g, PdIdx(g, sh.row), 0), SectorOf(g, sh), right);
    NthIs(groups, i, b);
    FlippedIsTorn(g, code, io.stripes, before, sh, right);
    FlipSurvives(g, code, members, unit0, io, groups, before, i, b);
    NotRepaired(g, code, members, io.stripes, Recovered(g, code, members, unit0, io, now), Nth(groups, i, b), right);
    ClosesFor(g, code, members, unit0, io, before, now);
  }

  lemma MixedTail(g: Geom, io: IoUnit, groups: seq<seq<Stripe>>, i: nat)
    requires UnitOk(g, io, groups) && i < |groups| && !Uniform(groups[i])
    ensures groups[i] != [] && StripeOk(g, groups[i][|groups[i]| - 1])
    ensures VisitedRows(groups[i]) <= |groups[i]| - 1
  {
    PartialsBound(groups[i]);
    assert Describes(g, io.entries[i], groups[i]);
  }

  lemma ClosesFor(g: Geom, code: Code, members: seq<Member>, unit0: nat, io: IoUnit, before: Content, now: Content)
    requires Ready(g, members) && 1 <= unit0 && AllOk(g, io.stripes)
    requires Torn(g, code, io.stripes, before, now)
    ensures Closes(g, code, members, unit0, io) ==>
              Repaired(g, code, members, io.stripes, Recovered(g, code, members, unit0, io, now))
  {
  }

  lemma FlippedElsewhere(c: Content, slot: nat, q: nat, right: bv8, s: nat)
    requires s != slot
    ensures At(Flipped(c, slot, q, right), s, q) == At(c, s, q)
  {
  }

  /** The log closes the write hole exactly when each of its entries is all
      full-stripe writes or has none: the append test does not look at that, so
      a full-stripe write that continues a partial write of every column makes
      an entry recovery cannot repair. */
  lemma ClosesExactly(g: Geom, code: Code, members: seq<Member>, unit0: nat, io: IoUnit, groups: seq<seq<Stripe>>,
          before: Content)
    requires Ready(g, members) && UnitOk(g, io, groups) && 1 <= unit0 && BlockOk(unit0) && Distinct(io.stripes)
    requires Linear(code) && AllOk(g, io.stripes) && Torn(g, code, io.stripes, before, before) && AllPresent(members)
    ensures Closes(g, code, members, unit0, io) <==> AllUniform(groups)
  {
    if AllUniform(groups) {
      forall before: Content, now: Content | Torn(g, code, io.stripes, before, now)
        ensures Repaired(g, code, members, io.stripes, Recovered(g, code, members, unit0, io, now))
      {
        HoleClosed(g, code, members, unit0, io, groups, before, now);
      }
    } else {
      var i: nat :| i < |groups| && !Uniform(groups[i]);
      MixedLeavesHole(g, code, members, unit0, io, groups, before, i);
    }
  }
}
