/** A checkpoint, event by event, and what a power cut after any of them leaves: the previous
    checkpoint complete until the header is written, then one of the two
    (rk_sn_checkpoint, km/raid_km-snapmeta.c:479-599). */
module SnapCheckpoint {
  import opened SnapState
  import opened SnapDerive
  import opened SnapRegion
  import opened SnapLoad
  import opened SnapStored
  import opened SnapReplay

  // ---- what it writes -------------------------------------------------------------------

  /** the slot the page is not in now; a page not in any goes to slot 0 */
  function OtherSlot(e: PmapEnt): nat {
    if e.Touched? && e.slot == 0 then 1 else 0
  }

  predicate Rewritten(core: Core, full: bool, p: nat) {
    p in core.rdirty || (full && p < |core.pmap| && core.pmap[p].Touched?)
  }

  predicate Written(core: Core, full: bool, p: nat) {
    Rewritten(core, full, p) && RmapPage(core.st.rmap, p) != map[]
  }

  function NextEnt(core: Core, full: bool, p: nat): PmapEnt
    requires p < |core.pmap|
  {
    if !Rewritten(core, full, p) then core.pmap[p]
    else if RmapPage(core.st.rmap, p) == map[] then Untouched
    else Touched(OtherSlot(core.pmap[p]))
  }

  function NextPmap(core: Core, full: bool): seq<PmapEnt> {
    seq(|core.pmap|, p requires 0 <= p < |core.pmap| => NextEnt(core, full, p))
  }

  function RmapWrites(core: Core, full: bool, n: nat): seq<Ev>
    requires n <= |core.pmap|
  {
    if n == 0 then []
    else
      RmapWrites(core, full, n - 1) +
      if Written(core, full, n - 1) then
        [Write(RmapAt(OtherSlot(core.pmap[n - 1]), n - 1), Good(core.ckpt + 1, Rmap(RmapPage(core.st.rmap, n - 1))))]
      else []
  }

  function PmapWrites(c: nat, pmap: seq<PmapEnt>, n: nat): seq<Ev> {
    if n == 0 then []
    else PmapWrites(c, pmap, n - 1) + [Write(PmapAt(c % 2, n - 1), Good(c, Pmap(PmapPage(pmap, n - 1))))]
  }

  function TblWrites(c: nat, snaps: seq<Snap>, n: nat): seq<Ev> {
    if n == 0 then []
    else TblWrites(c, snaps, n - 1) + [Write(TblAt(c % 2, n - 1), Good(c, Tbl(TblPage(snaps, n - 1))))]
  }

  function TableEvents(c: nat, pmap: seq<PmapEnt>, snaps: seq<Snap>): seq<Ev> {
    PmapWrites(c, pmap, PmapPages(|pmap|)) + TblWrites(c, snaps, TBL_PAGES) + [Flush]
  }

  /** everything before the header */
  function BodyEvents(core: Core, full: bool): seq<Ev> {
    RmapWrites(core, full, |core.pmap|) + [Flush]
    + TableEvents(core.ckpt + 1, NextPmap(core, full), core.st.snaps)
  }

  function HdrEvents(core: Core): seq<Ev> {
    var c := core.ckpt + 1;
    [Write(HdrAt(c % 2), Good(c, Hdr(core.pct, core.st.R, core.st.O, c, core.jhead, core.st.nextId,
                                     RmapPages(core.st.R)))),
     Fua({HdrAt(c % 2)})]
  }

  function CheckpointEvents(core: Core, full: bool): seq<Ev> {
    BodyEvents(core, full) + HdrEvents(core)
  }

  /** the in-core state once it is done */
  function AfterCheckpoint(core: Core, full: bool): Core {
    core.(ckpt := core.ckpt + 1, jtail := core.jhead, pmap := NextPmap(core, full), rdirty := {})
  }

  ghost function NextPer(core: Core, per: Per, full: bool): Per
    requires UsedCovers(core.st)
  {
    Per(per.pct, per.ckpt + 1, |per.hist|, Settled(core.st), NextPmap(core, full), per.hist, |per.hist|)
  }

  // ---- the running array and its durable history ---------------------------------------------

  /** the in-core state is the checkpoint's with every later record applied, and what the
      checkpoint lacks is marked */
  ghost predicate InCore(core: Core, per: Per) {
    && PerOk(per) && Coherent(core.st) && UsedCovers(core.st) && core.st.nextId > 0
    && Settled(core.st) == ApplyRecs(per.base, per.hist[per.jtail..])
    && core.st.R == per.base.R && core.st.O == per.base.O
    && DirtyCovers(per.base.rmap, Live(core.st, core.rdirty))
    && core.pct == per.pct && core.pmap == per.pmap && core.ckpt == per.ckpt
    && core.jtail == per.jtail && core.jhead == |per.hist|
  }

  /** whatever a power cut leaves of this member holds the history ... */
  ghost predicate Safe(per: Per, d: Disk) {
    forall img: Image :: IsImage(d, img) ==> Stored(per, img)
  }

  /** ... and its newest header */
  ghost predicate KeepsHdr(per: Per, d: Disk) {
    forall img: Image :: IsImage(d, img) ==> HasHdr(per, img)
  }

  /** no load of this checkpoint reads the page */
  predicate Spare(per: Per, a: Addr) {
    match a
    case HdrAt(_) => false
    case TblAt(copy, _) => copy != per.ckpt % 2
    case PmapAt(copy, _) => copy != per.ckpt % 2
    case RmapAt(slot, page) => !(page < |per.pmap| && per.pmap[page] == Touched(slot))
    case JrnlAt(_) => false
  }

  // ---- writing spare pages ----------------------------------------------------------------------

  lemma SparesKept(per: Per, x: Image, y: Image, a: Addr)
    requires Stored(per, x) && SameBut(x, y, a) && Spare(per, a)
    ensures Stored(per, y)
  {
    hide Spare, PmapPages, RingFits, HdrCopyOk, RecordOk, RmapCopyOk, PmapPage, TblPage;
    assert forall i :: HdrAt(i) != a && Rd(y, HdrAt(i)) == Rd(x, HdrAt(i)) by { SpareKinds(per, a); }
    assert forall i :: JrnlAt(i) != a && Rd(y, JrnlAt(i)) == Rd(x, JrnlAt(i)) by { SpareKinds(per, a); }
    assert forall i :: Rd(y, TblAt(per.ckpt % 2, i)) == Rd(x, TblAt(per.ckpt % 2, i)) by { SpareKinds(per, a); }
    assert forall i :: Rd(y, PmapAt(per.ckpt % 2, i)) == Rd(x, PmapAt(per.ckpt % 2, i)) by { SpareKinds(per, a); }
    assert forall p :: 0 <= p < |per.pmap| && per.pmap[p].Touched? ==>
      Rd(y, RmapAt(per.pmap[p].slot, p)) == Rd(x, RmapAt(per.pmap[p].slot, p)) by { SpareKinds(per, a); }
    hide SameBut, Rd;
    assert HdrImg(per, y) && TblImg(per, y) && PmapImg(per, y);
    assert RmapImg(per, y);
    assert AckedImg(per, y) && RingImg(per, y);
  }

  lemma SpareKinds(per: Per, a: Addr)
    requires Spare(per, a)
    ensures !a.HdrAt? && !a.JrnlAt?
    ensures a.TblAt? ==> a.copy != per.ckpt % 2
    ensures a.PmapAt? ==> a.copy != per.ckpt % 2
    ensures a.RmapAt? ==> forall p :: 0 <= p < |per.pmap| && per.pmap[p].Touched? ==> a != RmapAt(per.pmap[p].slot, p)
  {
  }

  ghost predicate OnlySpares(per: Per, evs: seq<Ev>) {
    forall i :: 0 <= i < |evs| && evs[i].Write? ==> Spare(per, evs[i].a)
  }

  lemma SafeStep(per: Per, d: Disk, ev: Ev)
    requires Safe(per, d) && (ev.Write? ==> Spare(per, ev.a))
    ensures Safe(per, Do(d, ev))
  {
    hide Stored, Spare;
    forall img: Image | IsImage(Do(d, ev), img) ensures Stored(per, img) {
      if ev.Write? {
        var before := ImageBeforeWrite(d, ev.a, ev.pg, img);
        hide IsImage, Do, Rd;
        SparesKept(per, before, img, ev.a);
      } else {
        ImageBeforeBarrier(d, ev, img);
      }
    }
  }

  lemma {:induction false} SafeWrites(per: Per, d: Disk, evs: seq<Ev>)
    requires Safe(per, d) && OnlySpares(per, evs)
    ensures Safe(per, DoAll(d, evs))
  {
    hide Safe, Spare, Do;
    if evs != [] {
      var n := |evs| - 1;
      assert OnlySpares(per, evs[..n]);
      SafeWrites(per, d, evs[..n]);
      SafeStep(per, DoAll(d, evs[..n]), evs[n]);
    }
  }

  lemma KeepsHdrStep(per: Per, d: Disk, ev: Ev)
    requires KeepsHdr(per, d) && (ev.Write? ==> ev.a != HdrAt(per.ckpt % 2))
    ensures KeepsHdr(per, Do(d, ev))
  {
    hide HdrBody;
    forall img: Image | IsImage(Do(d, ev), img) ensures HasHdr(per, img) {
      if ev.Write? {
        var before := ImageBeforeWrite(d, ev.a, ev.pg, img);
        assert HasHdr(per, before);
      } else {
        ImageBeforeBarrier(d, ev, img);
      }
    }
  }

  lemma {:induction false} KeepsHdrAll(per: Per, d: Disk, evs: seq<Ev>)
    requires KeepsHdr(per, d)
    requires forall i :: 0 <= i < |evs| && evs[i].Write? ==> evs[i].a != HdrAt(per.ckpt % 2)
    ensures KeepsHdr(per, DoAll(d, evs))
  {
    hide KeepsHdr, Do;
    if evs != [] {
      var n := |evs| - 1;
      KeepsHdrAll(per, d, evs[..n]);
      KeepsHdrStep(per, DoAll(d, evs[..n]), evs[n]);
    }
  }

  // ---- the body of a checkpoint touches spare pages only ------------------------------------------

  lemma {:induction false} RmapWritesSpare(core: Core, per: Per, full: bool, n: nat)
    requires core.pmap == per.pmap && n <= |core.pmap|
    requires forall p :: 0 <= p < |per.pmap| && per.pmap[p].Touched? ==> per.pmap[p].slot < 2
    ensures OnlySpares(per, RmapWrites(core, full, n))
  {
    if n > 0 {
      RmapWritesSpare(core, per, full, n - 1);
      assert Spare(per, RmapAt(OtherSlot(core.pmap[n - 1]), n - 1));
      hide Spare, Written, RmapPage;
    }
  }

  lemma {:induction false} PmapWritesSpare(per: Per, pmap: seq<PmapEnt>, n: nat)
    ensures OnlySpares(per, PmapWrites(per.ckpt + 1, pmap, n))
  {
    if n > 0 {
      PmapWritesSpare(per, pmap, n - 1);
    }
  }

  lemma {:induction false} TblWritesSpare(per: Per, snaps: seq<Snap>, n: nat)
    ensures OnlySpares(per, TblWrites(per.ckpt + 1, snaps, n))
  {
    if n > 0 {
      TblWritesSpare(per, snaps, n - 1);
    }
  }

  lemma BodySpare(core: Core, per: Per, full: bool)
    requires core.pmap == per.pmap && core.ckpt == per.ckpt
    requires forall p :: 0 <= p < |per.pmap| && per.pmap[p].Touched? ==> per.pmap[p].slot < 2
    ensures OnlySpares(per, BodyEvents(core, full))
  {
    var pmap := NextPmap(core, full);
    RmapWritesSpare(core, per, full, |core.pmap|);
    PmapWritesSpare(per, pmap, PmapPages(|pmap|));
    TblWritesSpare(per, core.st.snaps, TBL_PAGES);
    hide Spare, PmapPages, NextPmap, RmapWrites, PmapWrites, TblWrites;
  }

  // ---- what the body leaves ---------------------------------------------------------------------------

  /** the last page written at a, pg if none */
  function Latest(evs: seq<Ev>, a: Addr, pg: Page): Page {
    if evs == [] then pg
    else
      var ev := evs[|evs| - 1];
      if ev.Write? && ev.a == a then ev.pg else Latest(evs[..|evs| - 1], a, pg)
  }

  lemma {:induction false} LatestIsCurrent(d: Disk, evs: seq<Ev>, a: Addr)
    ensures Rd(DoAll(d, evs).cur, a) == Latest(evs, a, Rd(d.cur, a))
  {
    if evs != [] {
      LatestIsCurrent(d, evs[..|evs| - 1], a);
    }
  }

  lemma {:induction false} LatestSplit(x: seq<Ev>, y: seq<Ev>, a: Addr, pg: Page)
    ensures Latest(x + y, a, pg) == Latest(y, a, Latest(x, a, pg))
  {
    if y == [] {
      assert x + y == x;
    } else {
      LatestSplit(x, y[..|y| - 1], a, pg);
      assert (x + y)[..|x + y| - 1] == x + y[..|y| - 1];
    }
  }

  lemma LatestSnoc(x: seq<Ev>, ev: Ev, a: Addr, pg: Page)
    ensures Latest(x + [ev], a, pg) == if ev.Write? && ev.a == a then ev.pg else Latest(x, a, pg)
  {
    assert (x + [ev])[..|x|] == x;
  }

  lemma {:induction false} LatestRmap(core: Core, full: bool, n: nat, a: Addr, pg: Page)
    requires n <= |core.pmap|
    ensures Latest(RmapWrites(core, full, n), a, pg) ==
      if a.RmapAt? && a.page < n && Written(core, full, a.page) && a.slot == OtherSlot(core.pmap[a.page])
      then Good(core.ckpt + 1, Rmap(RmapPage(core.st.rmap, a.page))) else pg
  {
    hide RmapPage;
    if n > 0 {
      LatestRmap(core, full, n - 1, a, pg);
      var x := RmapWrites(core, full, n - 1);
      if Written(core, full, n - 1) {
        LatestSnoc(x, Write(RmapAt(OtherSlot(core.pmap[n - 1]), n - 1),
                            Good(core.ckpt + 1, Rmap(RmapPage(core.st.rmap, n - 1)))), a, pg);
      } else {
        assert x + [] == x;
      }
    }
  }

  lemma {:induction false} LatestPmap(c: nat, pmap: seq<PmapEnt>, n: nat, a: Addr, pg: Page)
    ensures Latest(PmapWrites(c, pmap, n), a, pg) ==
      if a.PmapAt? && a.copy == c % 2 && a.page < n then Good(c, Pmap(PmapPage(pmap, a.page))) else pg
  {
    hide PmapPage;
    if n > 0 {
      LatestPmap(c, pmap, n - 1, a, pg);
      LatestSnoc(PmapWrites(c, pmap, n - 1), Write(PmapAt(c % 2, n - 1), Good(c, Pmap(PmapPage(pmap, n - 1)))), a, pg);
    }
  }

  lemma {:induction false} LatestTbl(c: nat, snaps: seq<Snap>, n: nat, a: Addr, pg: Page)
    ensures Latest(TblWrites(c, snaps, n), a, pg) ==
      if a.TblAt? && a.copy == c % 2 && a.page < n then Good(c, Tbl(TblPage(snaps, a.page))) else pg
  {
    hide TblPage;
    if n > 0 {
      LatestTbl(c, snaps, n - 1, a, pg);
      LatestSnoc(TblWrites(c, snaps, n - 1), Write(TblAt(c % 2, n - 1), Good(c, Tbl(TblPage(snaps, n - 1)))), a, pg);
    }
  }

  /** every page after the body, from what it was */
  function BodyPage(core: Core, full: bool, a: Addr, pg: Page): Page {
    var c, pmap := core.ckpt + 1, NextPmap(core, full);
    match a
    case RmapAt(slot, page) =>
      if page < |core.pmap| && Written(core, full, page) && slot == OtherSlot(core.pmap[page])
      then Good(c, Rmap(RmapPage(core.st.rmap, page))) else pg
    case PmapAt(copy, page) =>
      if copy == c % 2 && page < PmapPages(|pmap|) then Good(c, Pmap(PmapPage(pmap, page))) else pg
    case TblAt(copy, page) =>
      if copy == c % 2 && page < TBL_PAGES then Good(c, Tbl(TblPage(core.st.snaps, page))) else pg
    case _ => pg
  }

  lemma LatestTables(c: nat, pmap: seq<PmapEnt>, snaps: seq<Snap>, a: Addr, pg: Page)
    ensures Latest(TableEvents(c, pmap, snaps), a, pg) ==
      if a.PmapAt? && a.copy == c % 2 && a.page < PmapPages(|pmap|) then Good(c, Pmap(PmapPage(pmap, a.page)))
      else if a.TblAt? && a.copy == c % 2 && a.page < TBL_PAGES then Good(c, Tbl(TblPage(snaps, a.page)))
      else pg
  {
    var n := PmapPages(|pmap|);
    var y, z := PmapWrites(c, pmap, n), TblWrites(c, snaps, TBL_PAGES);
    LatestPmap(c, pmap, n, a, pg);
    LatestTbl(c, snaps, TBL_PAGES, a, Latest(y, a, pg));
    hide PmapPages, Latest, PmapWrites, TblWrites, PmapPage, TblPage;
    LatestSplit(y, z, a, pg);
    LatestSnoc(y + z, Flush, a, pg);
  }

  lemma LatestBody(core: Core, full: bool, a: Addr, pg: Page)
    ensures Latest(BodyEvents(core, full), a, pg) == BodyPage(core, full, a, pg)
  {
    var x := RmapWrites(core, full, |core.pmap|);
    var y := TableEvents(core.ckpt + 1, NextPmap(core, full), core.st.snaps);
    LatestTables(core.ckpt + 1, NextPmap(core, full), core.st.snaps, a, Latest(x, a, pg));
    LatestRmap(core, full, |core.pmap|, a, pg);
    hide NextPmap, PmapPages, Latest, RmapWrites, TableEvents, RmapPage, PmapPage, TblPage, Written, OtherSlot;
    LatestSplit(x + [Flush], y, a, pg);
    LatestSnoc(x, Flush, a, pg);
  }

  // ---- once the body is durable, both checkpoints are there --------------------------------------------

  ghost predicate BodyLaid(core: Core, full: bool, x: Image, y: Image) {
    forall a :: Rd(y, a) == BodyPage(core, full, a, Rd(x, a))
  }

  lemma NextFits(core: Core, per: Per, full: bool)
    requires InCore(core, per)
    ensures PmapFits(NextPer(core, per, full))
  {
    var next := NextPer(core, per, full);
    forall p | 0 <= p < |next.pmap|
      ensures next.pmap[p].Untouched? ==> RmapPage(next.base.rmap, p) == map[]
      ensures next.pmap[p].Touched? ==> next.pmap[p].slot < 2
    {
      assert next.pmap[p] == NextEnt(core, full, p);
      assert PmapFits(per);
      hide RmapPage, PmapFits;
    }
  }

  lemma NextPerOk(core: Core, per: Per, full: bool)
    requires InCore(core, per)
    ensures PerOk(NextPer(core, per, full))
  {
    var next := NextPer(core, per, full);
    NextFits(core, per, full);
    SettledCoherent(core.st);
    assert forall P :: Owner(Settled(core.st), P) == Owner(core.st, P);
    assert next.hist[next.jtail..] == [];
    hide Coherent, PmapFits, Owner;
  }

  /** a page of the next checkpoint: rewritten in its other slot, or unchanged where it was */
  lemma NextRmapPage(core: Core, per: Per, full: bool, p: nat, was: Page, now: Page)
    requires p < |core.pmap| && core.pmap == per.pmap && core.ckpt == per.ckpt
    requires p !in core.rdirty ==> RmapPage(core.st.rmap, p) == RmapPage(per.base.rmap, p)
    requires NextEnt(core, full, p).Touched?
    requires now == BodyPage(core, full, RmapAt(NextEnt(core, full, p).slot, p), was)
    requires NextEnt(core, full, p) == per.pmap[p] ==> RmapCopyOk(per, p, was)
    ensures now.Good? && now.gen <= core.ckpt + 1 && now.body == Rmap(RmapPage(core.st.rmap, p))
  {
    hide RmapPage, PmapPage, TblPage, NextPmap;
  }

  lemma NextRmap(core: Core, per: Per, full: bool, x: Image, y: Image)
    requires InCore(core, per) && RmapImg(per, x) && BodyLaid(core, full, x, y)
    ensures RmapImg(NextPer(core, per, full), y)
  {
    var next := NextPer(core, per, full);
    assert DirtyCovers(per.base.rmap, Live(core.st, core.rdirty));
    assert core.pmap == per.pmap && core.ckpt == per.ckpt;
    hide InCore;
    forall p | 0 <= p < |next.pmap| && next.pmap[p].Touched?
      ensures RmapCopyOk(next, p, Rd(y, RmapAt(next.pmap[p].slot, p)))
    {
      var e := NextEnt(core, full, p);
      assert next.pmap[p] == e;
      var a := RmapAt(e.slot, p);
      assert Rd(y, a) == BodyPage(core, full, a, Rd(x, a));
      hide BodyLaid, RmapPage, NextEnt, BodyPage, Rd;
      NextRmapPage(core, per, full, p, Rd(x, a), Rd(y, a));
    }
  }

  lemma NextRing(core: Core, per: Per, full: bool, x: Image, y: Image)
    requires RingFits(per) && RingImg(per, x) && UsedCovers(core.st)
    requires forall i :: Rd(y, JrnlAt(i)) == Rd(x, JrnlAt(i))
    ensures RingImg(NextPer(core, per, full), y) && AckedImg(NextPer(core, per, full), y)
  {
    var next := NextPer(core, per, full);
    forall idx | 0 <= idx < JPAGES ensures RecordOk(next, idx, Rd(y, JrnlAt(idx))) {
      assert RecordOk(per, idx, Rd(x, JrnlAt(idx)));
    }
  }

  lemma NextHdr(core: Core, per: Per, full: bool, x: Image, y: Image)
    requires UsedCovers(core.st) && HdrImg(per, x) && BodyLaid(core, full, x, y)
    ensures HdrImg(NextPer(core, per, full), y)
  {
    var next := NextPer(core, per, full);
    forall i | 0 <= i < 2 ensures HdrCopyOk(next, i, Rd(y, HdrAt(i))) {
      assert HdrCopyOk(per, i, Rd(x, HdrAt(i)));
      assert Rd(y, HdrAt(i)) == BodyPage(core, full, HdrAt(i), Rd(x, HdrAt(i)));
      hide BodyLaid, HdrBody, Rd;
    }
  }

  /** pmap and table of the next checkpoint */
  lemma NextTables(core: Core, per: Per, full: bool, y: Image, x: Image)
    requires UsedCovers(core.st) && core.ckpt == per.ckpt && BodyLaid(core, full, x, y)
    ensures TblImg(NextPer(core, per, full), y) && PmapImg(NextPer(core, per, full), y)
  {
    var next := NextPer(core, per, full);
    var c := next.ckpt;
    hide PmapPages, PmapPage, TblPage, RmapPage, NextPmap, Written;
    forall i | 0 <= i < TBL_PAGES
      ensures Rd(y, TblAt(c % 2, i)) == Good(c, Tbl(TblPage(next.base.snaps, i)))
    {
      var a := TblAt(c % 2, i);
      assert Rd(y, a) == BodyPage(core, full, a, Rd(x, a));
      hide BodyLaid, Rd;
    }
    forall i | 0 <= i < PmapPages(|next.pmap|)
      ensures Rd(y, PmapAt(c % 2, i)) == Good(c, Pmap(PmapPage(next.pmap, i)))
    {
      var a := PmapAt(c % 2, i);
      assert Rd(y, a) == BodyPage(core, full, a, Rd(x, a));
      hide BodyLaid, Rd;
    }
  }

  /** The body written and flushed, the next checkpoint is complete but for its header. */
  lemma NextStored(core: Core, per: Per, full: bool, x: Image, y: Image)
    requires InCore(core, per) && Stored(per, x) && BodyLaid(core, full, x, y)
    ensures Stored(NextPer(core, per, full), y)
  {
    NextHdr(core, per, full, x, y);
    NextTables(core, per, full, y, x);
    NextRmap(core, per, full, x, y);
    forall i ensures Rd(y, JrnlAt(i)) == Rd(x, JrnlAt(i)) {
      assert Rd(y, JrnlAt(i)) == BodyPage(core, full, JrnlAt(i), Rd(x, JrnlAt(i)));
    }
    NextRing(core, per, full, x, y);
    NextPerOk(core, per, full);
  }

  lemma SameReads(per: Per, x: Image, y: Image)
    requires Stored(per, x) && forall a :: Rd(y, a) == Rd(x, a)
    ensures Stored(per, y)
  {
    hide Rd, RecordOk, HdrCopyOk, RmapCopyOk, PmapPages, PmapPage, TblPage;
    assert HdrImg(per, y) && TblImg(per, y) && PmapImg(per, y);
    assert RmapImg(per, y);
    assert AckedImg(per, y) && RingImg(per, y);
  }

  /** nothing is in flight */
  predicate Quiet(d: Disk) {
    d.may == map[]
  }

  lemma QuietSafe(per: Per, d: Disk)
    requires Quiet(d) && Stored(per, d.cur)
    ensures Safe(per, d)
  {
    hide Stored;
    forall img: Image | IsImage(d, img) ensures Stored(per, img) {
      forall a ensures Rd(img, a) == Rd(d.cur, a) {
        assert Possible(d, a, Rd(img, a));
      }
      SameReads(per, d.cur, img);
    }
  }

  lemma OwnImage(d: Disk)
    ensures IsImage(d, d.cur)
  {
  }

  lemma BodyDone(core: Core, per: Per, full: bool, d: Disk)
    requires InCore(core, per) && Safe(per, d)
    ensures var e := DoAll(d, BodyEvents(core, full));
      Quiet(e) && Safe(per, e) && Safe(NextPer(core, per, full), e)
  {
    var evs := BodyEvents(core, full);
    var e := DoAll(d, evs);
    assert core.pmap == per.pmap && core.ckpt == per.ckpt && PmapFits(per);
    hide InCore;
    BodySpare(core, per, full);
    SafeWrites(per, d, evs);
    assert evs[|evs| - 1] == Flush by { hide RmapWrites, PmapWrites, TblWrites, NextPmap, PmapPages; }
    OwnImage(d);
    hide BodyEvents, PmapFits;
    forall a ensures Rd(e.cur, a) == BodyPage(core, full, a, Rd(d.cur, a)) {
      LatestIsCurrent(d, evs, a);
      LatestBody(core, full, a, Rd(d.cur, a));
      hide BodyPage, Latest;
    }
    hide BodyPage, Stored, DoAll, IsImage;
    NextStored(core, per, full, d.cur, e.cur);
    QuietSafe(NextPer(core, per, full), e);
  }

  // ---- the header ------------------------------------------------------------------------------------------

  lemma HdrReplaced(per: Per, x: Image, y: Image, i: nat)
    requires Stored(per, x) && SameBut(x, y, HdrAt(i)) && HdrCopyOk(per, i, Rd(y, HdrAt(i)))
    ensures Stored(per, y)
  {
    hide RecordOk, RmapCopyOk, PmapPages, PmapPage, TblPage, HdrBody;
    assert forall k :: k != i ==> Rd(y, HdrAt(k)) == Rd(x, HdrAt(k));
    hide Rd, HdrCopyOk;
    assert HdrImg(per, y) && TblImg(per, y) && PmapImg(per, y);
    assert RmapImg(per, y);
    assert AckedImg(per, y) && RingImg(per, y);
  }

  /** What a power cut leaves while the header is being written: either the new checkpoint
      (its header landed) or the old one. */
  lemma HeaderInFlight(core: Core, per: Per, full: bool, d: Disk, img: Image)
    requires InCore(core, per) && Quiet(d) && Safe(per, d) && Safe(NextPer(core, per, full), d)
    requires IsImage(Do(d, HdrEvents(core)[0]), img)
    ensures Stored(NextPer(core, per, full), img)
    ensures HasHdr(NextPer(core, per, full), img) || Stored(per, img)
  {
    var next := NextPer(core, per, full);
    var i := next.ckpt % 2;
    var ev := HdrEvents(core)[0];
    assert ev == Write(HdrAt(i), Good(next.ckpt, HdrBody(next)));
    hide InCore, HdrEvents, Stored;
    var before := ImageBeforeWrite(d, HdrAt(i), ev.pg, img);
    assert Stored(per, before) && Stored(next, before);
    if Rd(img, HdrAt(i)) == ev.pg {
      HdrReplaced(next, before, img, i);
    } else if Rd(img, HdrAt(i)) == Bad {
      HdrReplaced(next, before, img, i);
      HdrReplaced(per, before, img, i);
    } else {
      hide HdrBody;
      forall a ensures Rd(img, a) == Rd(before, a) {
      }
      SameReads(next, before, img);
      SameReads(per, before, img);
    }
  }

  lemma HeaderDone(core: Core, per: Per, full: bool, d: Disk)
    requires InCore(core, per) && Quiet(d) && Safe(per, d) && Safe(NextPer(core, per, full), d)
    ensures var e := Do(Do(d, HdrEvents(core)[0]), HdrEvents(core)[1]);
      Safe(NextPer(core, per, full), e) && KeepsHdr(NextPer(core, per, full), e)
  {
    var next := NextPer(core, per, full);
    var d1 := Do(d, HdrEvents(core)[0]);
    var e := Do(d1, HdrEvents(core)[1]);
    var a := HdrAt(next.ckpt % 2);
    assert Holds(e, a, Good(next.ckpt, HdrBody(next)));
    forall img: Image | IsImage(e, img) ensures Stored(next, img) && HasHdr(next, img) {
      HoldsImage(e, img, a, Good(next.ckpt, HdrBody(next)));
      hide Stored, InCore, Safe, IsImage;
      ImageBeforeBarrier(d1, HdrEvents(core)[1], img);
      HeaderInFlight(core, per, full, d, img);
    }
  }

  // ---- the whole checkpoint ---------------------------------------------------------------------------------

  lemma {:induction false} DoAllSplit(d: Disk, x: seq<Ev>, y: seq<Ev>)
    ensures DoAll(d, x + y) == DoAll(DoAll(d, x), y)
  {
    hide Do;
    if y == [] {
      assert x + y == x;
    } else {
      DoAllSplit(d, x, y[..|y| - 1]);
      assert (x + y)[..|x + y| - 1] == x + y[..|y| - 1];
    }
  }

  /** with the header on its way or done */
  lemma HeaderCrash(core: Core, per: Per, full: bool, d: Disk, n: nat, img: Image)
    requires InCore(core, per) && Quiet(d) && Safe(per, d) && Safe(NextPer(core, per, full), d)
    requires 0 < n <= 2 && IsImage(DoAll(d, HdrEvents(core)[..n]), img)
    ensures Stored(NextPer(core, per, full), img)
    ensures HasHdr(NextPer(core, per, full), img) || Stored(per, img)
    ensures n == 2 ==> HasHdr(NextPer(core, per, full), img)
  {
    assert UsedCovers(core.st);
    hide InCore, Safe, Stored, HasHdr, IsImage, Do;
    var hdr := HdrEvents(core);
    if n == 1 {
      assert hdr[..1][..0] == [] && hdr[..1][0] == hdr[0];
      assert DoAll(d, hdr[..1]) == Do(DoAll(d, []), hdr[0]);
    } else {
      TwoEvents(d, hdr);
      assert hdr[..2] == hdr;
      ImageBeforeFua(core, d, img);
      HeaderDone(core, per, full, d);
      SafeImage(NextPer(core, per, full), DoAll(d, hdr), img);
    }
    HeaderInFlight(core, per, full, d, img);
  }

  /** Shadow paging: after any prefix of the writes of checkpoint c + 1, whatever of them a
      power cut tears or loses, a member holds checkpoint c complete or, where the new header
      landed, c + 1; before the header it is always c. */
  lemma CheckpointCrash(core: Core, per: Per, full: bool, d: Disk, n: nat, img: Image)
    requires InCore(core, per) && Safe(per, d) && n <= |CheckpointEvents(core, full)|
    requires IsImage(DoAll(d, CheckpointEvents(core, full)[..n]), img)
    ensures n <= |BodyEvents(core, full)| ==> Stored(per, img)
    ensures n > |BodyEvents(core, full)| ==> Stored(NextPer(core, per, full), img)
    ensures n > |BodyEvents(core, full)| ==> HasHdr(NextPer(core, per, full), img) || Stored(per, img)
    ensures n == |CheckpointEvents(core, full)| ==> HasHdr(NextPer(core, per, full), img)
  {
    var body, hdr, evs := BodyEvents(core, full), HdrEvents(core), CheckpointEvents(core, full);
    assert core.pmap == per.pmap && core.ckpt == per.ckpt && PmapFits(per) && UsedCovers(core.st);
    if n <= |body| {
      assert evs[..n] == body[..n];
      hide InCore, Stored, IsImage, DoAll;
      BodySpare(core, per, full);
      SafeWrites(per, d, body[..n]);
    } else {
      BodyDone(core, per, full, d);
      hide InCore, PmapFits, Safe, BodyEvents, Stored, HasHdr, IsImage, Do, DoAll;
      assert evs[..n] == body + hdr[..n - |body|];
      DoAllSplit(d, body, hdr[..n - |body|]);
      HeaderCrash(core, per, full, DoAll(d, body), n - |body|, img);
    }
  }

  lemma TwoEvents(d: Disk, evs: seq<Ev>)
    requires |evs| == 2
    ensures DoAll(d, evs) == Do(Do(d, evs[0]), evs[1])
  {
    assert evs[..1][..0] == [] && evs[..1][0] == evs[0];
    assert DoAll(d, evs[..1]) == Do(DoAll(d, []), evs[0]);
  }

  lemma ImageBeforeFua(core: Core, d: Disk, img: Image)
    requires IsImage(Do(Do(d, HdrEvents(core)[0]), HdrEvents(core)[1]), img)
    ensures IsImage(Do(d, HdrEvents(core)[0]), img)
  {
    ImageBeforeBarrier(Do(d, HdrEvents(core)[0]), HdrEvents(core)[1], img);
  }

  lemma SafeImage(per: Per, d: Disk, img: Image)
    requires KeepsHdr(per, d) && IsImage(d, img)
    ensures HasHdr(per, img)
  {
  }

  /** A checkpoint that completes is the newest one, everywhere. */
  lemma CheckpointDone(core: Core, per: Per, full: bool, d: Disk)
    requires InCore(core, per) && Safe(per, d)
    ensures var e := DoAll(d, CheckpointEvents(core, full));
      Safe(NextPer(core, per, full), e) && KeepsHdr(NextPer(core, per, full), e)
  {
    var evs := CheckpointEvents(core, full);
    assert UsedCovers(core.st) && evs[..|evs|] == evs;
    forall img: Image | IsImage(DoAll(d, evs), img)
      ensures Stored(NextPer(core, per, full), img) && HasHdr(NextPer(core, per, full), img)
    {
      hide InCore, Safe, IsImage, Stored, HasHdr, BodyEvents, DoAll;
      CheckpointCrash(core, per, full, d, |evs|, img);
    }
  }

  /** the old header stays where it is throughout */
  lemma OldHeaderStays(core: Core, per: Per, full: bool, d: Disk, n: nat)
    requires InCore(core, per) && KeepsHdr(per, d) && n <= |CheckpointEvents(core, full)|
    ensures KeepsHdr(per, DoAll(d, CheckpointEvents(core, full)[..n]))
  {
    var evs := CheckpointEvents(core, full)[..n];
    assert core.pmap == per.pmap && core.ckpt == per.ckpt && PmapFits(per);
    hide InCore;
    BodySpare(core, per, full);
    forall i | 0 <= i < |evs| && evs[i].Write? ensures evs[i].a != HdrAt(per.ckpt % 2) {
      if i < |BodyEvents(core, full)| {
        assert evs[i] == BodyEvents(core, full)[i];
        hide BodyEvents;
        SpareKinds(per, evs[i].a);
      } else {
        assert evs[i] == HdrEvents(core)[i - |BodyEvents(core, full)|];
      }
    }
    KeepsHdrAll(per, d, evs);
  }

  lemma CheckpointInCore(core: Core, per: Per, full: bool)
    requires InCore(core, per)
    ensures InCore(AfterCheckpoint(core, full), NextPer(core, per, full))
  {
    NextPerOk(core, per, full);
    assert NextPer(core, per, full).hist[|per.hist|..] == [];
  }

  // ---- a member that joins ------------------------------------------------------------------------

  /** no header and no journal record in it is this array's */
  ghost predicate Foreign(x: Image) {
    && (forall i :: !Rd(x, HdrAt(i)).Good?)
    && forall idx :: !Rd(x, JrnlAt(idx)).Good?
  }

  /** a full checkpoint rewrites each page that the new page map names */
  lemma FullRmap(core: Core, per: Per, x: Image, y: Image)
    requires InCore(core, per) && BodyLaid(core, true, x, y)
    ensures RmapImg(NextPer(core, per, true), y)
  {
    var next := NextPer(core, per, true);
    assert DirtyCovers(per.base.rmap, Live(core.st, core.rdirty)) && PmapFits(per);
    assert core.pmap == per.pmap && core.ckpt == per.ckpt && next.base.rmap == core.st.rmap;
    hide InCore, DirtyCovers;
    forall p | 0 <= p < |next.pmap| && next.pmap[p].Touched?
      ensures RmapCopyOk(next, p, Rd(y, RmapAt(next.pmap[p].slot, p)))
    {
      var e := NextEnt(core, true, p);
      var a := RmapAt(e.slot, p);
      assert next.pmap[p] == e && Rd(y, a) == BodyPage(core, true, a, Rd(x, a));
      hide BodyLaid, Rd, NextPmap, RmapPage, PmapFits;
      FullPage(core, p, Rd(x, a));
    }
  }

  lemma FullPage(core: Core, p: nat, was: Page)
    requires p < |core.pmap| && NextEnt(core, true, p).Touched?
    ensures BodyPage(core, true, RmapAt(NextEnt(core, true, p).slot, p), was)
         == Good(core.ckpt + 1, Rmap(RmapPage(core.st.rmap, p)))
  {
    hide RmapPage, PmapPage, TblPage, NextPmap;
  }

  lemma ForeignOthers(core: Core, per: Per, x: Image, y: Image)
    requires InCore(core, per) && BodyLaid(core, true, x, y) && Foreign(x)
    ensures HdrImg(NextPer(core, per, true), y)
    ensures RingFits(NextPer(core, per, true))
    ensures AckedImg(NextPer(core, per, true), y) && RingImg(NextPer(core, per, true), y)
  {
    var next := NextPer(core, per, true);
    assert RingFits(per);
    hide InCore, HdrBody;
    forall i ensures Rd(y, HdrAt(i)) == Rd(x, HdrAt(i)) && Rd(y, JrnlAt(i)) == Rd(x, JrnlAt(i)) {
      assert Rd(y, HdrAt(i)) == BodyPage(core, true, HdrAt(i), Rd(x, HdrAt(i)));
      assert Rd(y, JrnlAt(i)) == BodyPage(core, true, JrnlAt(i), Rd(x, JrnlAt(i)));
    }
    hide BodyLaid, Rd;
  }

  lemma SeedStored(core: Core, per: Per, x: Image, y: Image)
    requires InCore(core, per) && BodyLaid(core, true, x, y) && Foreign(x)
    ensures Stored(NextPer(core, per, true), y)
  {
    assert UsedCovers(core.st) && core.ckpt == per.ckpt;
    FullRmap(core, per, x, y);
    NextTables(core, per, true, y, x);
    ForeignOthers(core, per, x, y);
    hide InCore, BodyLaid, NextPer, HdrImg, TblImg, PmapImg, RmapImg, AckedImg, RingImg, RingFits;
  }

  lemma SeedBody(core: Core, per: Per, x: Image)
    requires InCore(core, per) && Foreign(x)
    ensures var e := DoAll(Disk(x, map[]), BodyEvents(core, true));
      Quiet(e) && Stored(NextPer(core, per, true), e.cur)
  {
    var evs := BodyEvents(core, true);
    var e := DoAll(Disk(x, map[]), evs);
    assert evs[|evs| - 1] == Flush by { hide RmapWrites, PmapWrites, TblWrites, NextPmap, PmapPages; }
    assert e == Do(DoAll(Disk(x, map[]), evs[..|evs| - 1]), Flush);
    assert Quiet(e);
    hide InCore, BodyEvents, DoAll, Stored;
    forall a ensures Rd(e.cur, a) == BodyPage(core, true, a, Rd(x, a)) {
      LatestIsCurrent(Disk(x, map[]), evs, a);
      LatestBody(core, true, a, Rd(x, a));
    }
    SeedStored(core, per, x, e.cur);
  }

  lemma SeedHeader(core: Core, per: Per, d: Disk)
    requires InCore(core, per) && Quiet(d) && Stored(NextPer(core, per, true), d.cur)
    ensures var e := DoAll(d, HdrEvents(core));
      Quiet(e) && Stored(NextPer(core, per, true), e.cur) && HasHdr(NextPer(core, per, true), e.cur)
  {
    var next := NextPer(core, per, true);
    var i, e := next.ckpt % 2, DoAll(d, HdrEvents(core));
    assert HdrEvents(core) == [Write(HdrAt(i), Good(next.ckpt, HdrBody(next))), Fua({HdrAt(i)})];
    TwoEvents(d, HdrEvents(core));
    assert e.cur == d.cur[HdrAt(i) := Good(next.ckpt, HdrBody(next))];
    assert Quiet(e);
    hide InCore, HdrEvents, DoAll, Stored, NextPer;
    HdrReplaced(next, d.cur, e.cur, i);
  }

  /** A member that joins with a region that is not this array's has, after a full checkpoint, all
      that the others have: the new checkpoint, durable, with its header. */
  lemma SeedComplete(core: Core, per: Per, x: Image)
    requires InCore(core, per) && Foreign(x)
    ensures var e := DoAll(Disk(x, map[]), CheckpointEvents(core, true));
      Safe(NextPer(core, per, true), e) && KeepsHdr(NextPer(core, per, true), e)
  {
    assert UsedCovers(core.st);
    hide *;
    SeedBody(core, per, x);
    SeedHeader(core, per, DoAll(Disk(x, map[]), BodyEvents(core, true)));
    SeedEvents(core);
    DoAllSplit(Disk(x, map[]), BodyEvents(core, true), HdrEvents(core));
    var e := DoAll(Disk(x, map[]), CheckpointEvents(core, true));
    QuietSafe(NextPer(core, per, true), e);
    QuietKeeps(NextPer(core, per, true), e);
  }

  lemma SeedEvents(core: Core)
    ensures CheckpointEvents(core, true) == BodyEvents(core, true) + HdrEvents(core)
  {
    hide BodyEvents, HdrEvents;
  }

  lemma QuietKeeps(per: Per, d: Disk)
    requires Quiet(d) && HasHdr(per, d.cur)
    ensures KeepsHdr(per, d)
  {
    forall img: Image | IsImage(d, img) ensures HasHdr(per, img) {
      assert Possible(d, HdrAt(per.ckpt % 2), Rd(img, HdrAt(per.ckpt % 2)));
    }
  }
}
