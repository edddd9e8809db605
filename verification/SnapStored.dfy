/** What a region must hold for a load to succeed, and that it then does: the newest
    complete checkpoint, and every record since that some member still has. */
module SnapStored {
  import opened SnapState
  import opened SnapDerive
  import opened SnapRegion
  import opened SnapLoad

  // ---- journals ----------------------------------------------------------------------------

  ghost predicate OpsOk(st: St, ops: seq<Op>)
    decreases |ops|
  {
    ops == [] || (OpOk(st, ops[0]) && Applicable(st, ops[0]) && OpsOk(Apply(st, ops[0]), ops[1..]))
  }

  ghost function ApplyAll(st: St, ops: seq<Op>): St
    requires OpsOk(st, ops)
    decreases |ops|
  {
    if ops == [] then st else ApplyAll(Apply(st, ops[0]), ops[1..])
  }

  ghost predicate RecsOk(st: St, recs: seq<seq<Op>>)
    decreases |recs|
  {
    recs == [] || (OpsOk(st, recs[0]) && RecsOk(ApplyAll(st, recs[0]), recs[1..]))
  }

  ghost function ApplyRecs(st: St, recs: seq<seq<Op>>): St
    requires RecsOk(st, recs)
    decreases |recs|
  {
    if recs == [] then st else ApplyRecs(ApplyAll(st, recs[0]), recs[1..])
  }

  lemma {:induction false} RecsSplit(st: St, a: seq<seq<Op>>, b: seq<seq<Op>>)
    ensures RecsOk(st, a + b) <==> RecsOk(st, a) && RecsOk(ApplyRecs(st, a), b)
    ensures RecsOk(st, a + b) ==> ApplyRecs(st, a + b) == ApplyRecs(ApplyRecs(st, a), b)
    decreases |a|
  {
    if a == [] {
      assert a + b == b;
    } else {
      assert (a + b)[0] == a[0] && (a + b)[1..] == a[1..] + b;
      if OpsOk(st, a[0]) {
        RecsSplit(ApplyAll(st, a[0]), a[1..], b);
      }
    }
  }

  /** coherent, and nothing reserved: what a load gives */
  ghost predicate AtRest(st: St) {
    Coherent(st) && st.used == OwnedRows(st)
  }

  lemma SettledApply(st: St, op: Op)
    requires Coherent(st) && OpOk(st, op) && UsedCovers(st)
    ensures OpOk(Settled(st), op) && Applicable(st, op) && Applicable(Settled(st), op)
    ensures Coherent(Apply(st, op)) && UsedCovers(Apply(st, op))
    ensures Settled(Apply(st, op)) == Apply(Settled(st), op)
  {
    ApplyCoherent(st, op);
    CoherentParts(Apply(st, op));
    SettledOps(st, op);
    hide Coherent, UsedCovers, OwnedRows, OpOk;
    match op {
      case Redirect(L, oldP, newP) =>
        SettledRedirect(st, L, oldP, newP);
        RedirectReserves(st, L, oldP, newP, OwnedRows(st));
      case Create(_, _, _, _, _) => SettledSame(st, Apply(st, op));
      case Destroy(slot) =>
        hide Settled, ApplyDestroy;
        SettledDestroy(st, slot);
      case Rename(_, _) => SettledSame(st, Apply(st, op));
      case Set(_, _) => SettledSame(st, Apply(st, op));
    }
  }

  lemma SettledOps(st: St, op: Op)
    requires UsedCovers(st) && OpOk(st, op)
    ensures OpOk(Settled(st), op) && (Applicable(st, op) ==> Applicable(Settled(st), op))
  {
    assert forall P :: Owner(Settled(st), P) == Owner(st, P);
    hide Owner, OwnedRows, UsedCovers;
  }

  lemma RedirectReserves(st: St, L: nat, oldP: nat, newP: nat, used: set<nat>)
    requires st.snaps != [] && L < |st.origin|
    ensures ApplyRedirect(st.(used := used), L, oldP, newP) ==
      ApplyRedirect(st, L, oldP, newP).(used := used + {newP})
  {
    hide RmapSet;
  }

  lemma SettledSame(st: St, s: St)
    requires UsedCovers(st) && UsedCovers(s) && s == st.(snaps := s.snaps, nextId := s.nextId)
    ensures OwnedRows(s) == OwnedRows(st)
  {
    assert forall P :: Owner(s, P) == Owner(st, P);
  }

  lemma SettledRedirect(st: St, L: nat, oldP: nat, newP: nat)
    requires Coherent(st) && OpOk(st, Redirect(L, oldP, newP))
    requires UsedCovers(st) && UsedCovers(ApplyRedirect(st, L, oldP, newP))
    ensures OwnedRows(ApplyRedirect(st, L, oldP, newP)) == OwnedRows(st) + {newP}
  {
    var s := ApplyRedirect(st, L, oldP, newP);
    assert forall P: nat :: Owner(s, P).own.OwnFree? <==> P != newP && Owner(st, P).own.OwnFree? by {
      forall P: nat ensures Owner(s, P).own.OwnFree? <==> P != newP && Owner(st, P).own.OwnFree? {
        RedirectOwners(st, L, oldP, newP, P);
      }
    }
    hide Coherent, Owner;
    assert newP < st.R;
  }

  /** dropping rows looks at the used rows for nothing but to mark them */
  lemma {:induction false} DropRowsUsed(st: St, u: set<nat>, i: nat, n: nat)
    requires i < |st.snaps|
    ensures DropRows(st.(used := u), i, n) == DropRows(st, i, n).(used := DropRows(st.(used := u), i, n).used)
  {
    if n > 0 {
      DropRowsUsed(st, u, i, n - 1);
    }
  }

  lemma SettledDestroy(st: St, slot: nat)
    requires Coherent(st) && IndexOf(st.snaps, slot) < |st.snaps|
    requires UsedCovers(st) && UsedCovers(ApplyDestroy(st, slot))
    ensures Settled(ApplyDestroy(st, slot)) == ApplyDestroy(Settled(st), slot)
  {
    var i := IndexOf(st.snaps, slot);
    var s, t := ApplyDestroy(st, slot), ApplyDestroy(Settled(st), slot);
    DropRowsUsed(st, OwnedRows(st), i, st.O);
    assert t == s.(used := t.used);
    SettledCoherent(st);
    DestroyLeaves(st, slot);
    DestroyLeaves(Settled(st), slot);
    hide ApplyDestroy;
    assert DroppedUsed(Settled(st), t);
    hide Destroyed;
    forall P: nat ensures P in t.used <==> P in OwnedRows(s) {
      DestroyOwner(st, s, i, P);
      assert Owner(t, P) == Owner(s, P) && Owner(Settled(st), P) == Owner(st, P);
      assert s.R == st.R;
      hide Owner, Coherent;
    }
  }

  // ---- what the region stores -------------------------------------------------------------------

  /** The durable history: the last checkpoint (number, journal tail, state, page map), all
      records written since the array was made, and how many of them were acknowledged. */
  datatype Per = Per(pct: nat, ckpt: nat, jtail: nat, base: St, pmap: seq<PmapEnt>,
                     hist: seq<seq<Op>>, acked: nat)

  /** an array without snapshots */
  ghost function Fresh(R: nat, O: nat): St {
    St(R, O, Identity(O), map[], [], Home(O), 1)
  }

  ghost predicate PmapFits(per: Per) {
    && |per.pmap| == RmapPages(per.base.R)
    && forall p :: 0 <= p < |per.pmap| ==>
         match per.pmap[p]
         case Untouched => RmapPage(per.base.rmap, p) == map[]
         case Touched(slot) => slot < 2
  }

  /** the ring is never asked to hold more than a lap: what is not covered, and one batch */
  ghost predicate RingFits(per: Per) {
    per.jtail <= per.acked <= |per.hist| <= per.acked + JBUF && per.acked <= per.jtail + JPAGES / 2 + JBUF
  }

  ghost predicate PerOk(per: Per) {
    && 1 <= per.pct <= 90 && per.base.nextId > 0
    && AtRest(per.base) && PmapFits(per) && RingFits(per)
    && RecsOk(per.base, per.hist[per.jtail..])
    && (per.ckpt == 0 ==>
          per.jtail == 0 && per.base.O == InitOrigin(per.base.R, per.pct) && per.base.nextId == 1
          && per.base.rmap == map[] && per.base.snaps == []
          && forall p :: 0 <= p < |per.pmap| ==> per.pmap[p] == Untouched)
  }

  /** the header of the checkpoint; mdadm's when there is none yet */
  function HdrBody(per: Per): Body {
    if per.ckpt == 0 then Hdr(per.pct, 0, 0, 0, 0, 0, 0)
    else Hdr(per.pct, per.base.R, per.base.O, per.ckpt, per.jtail, per.base.nextId, RmapPages(per.base.R))
  }

  /** no header newer than the checkpoint's, and only its own at its number */
  ghost predicate HdrImg(per: Per, img: Image) {
    forall i :: 0 <= i < 2 ==> HdrCopyOk(per, i, Rd(img, HdrAt(i)))
  }

  predicate HdrCopyOk(per: Per, i: nat, pg: Page) {
    pg.Good? ==>
      pg.body.Hdr? && pg.gen <= per.ckpt && pg.gen % 2 == i && (pg.gen == per.ckpt ==> pg.body == HdrBody(per))
  }

  predicate HasHdr(per: Per, img: Image) {
    Rd(img, HdrAt(per.ckpt % 2)) == Good(per.ckpt, HdrBody(per))
  }

  ghost predicate TblImg(per: Per, img: Image) {
    per.ckpt > 0 ==> forall i :: 0 <= i < TBL_PAGES ==>
      Rd(img, TblAt(per.ckpt % 2, i)) == Good(per.ckpt, Tbl(TblPage(per.base.snaps, i)))
  }

  ghost predicate PmapImg(per: Per, img: Image) {
    per.ckpt > 0 ==> forall i :: 0 <= i < PmapPages(|per.pmap|) ==>
      Rd(img, PmapAt(per.ckpt % 2, i)) == Good(per.ckpt, Pmap(PmapPage(per.pmap, i)))
  }

  ghost predicate RmapImg(per: Per, img: Image) {
    forall p :: 0 <= p < |per.pmap| && per.pmap[p].Touched? ==>
      RmapCopyOk(per, p, Rd(img, RmapAt(per.pmap[p].slot, p)))
  }

  predicate RmapCopyOk(per: Per, p: nat, pg: Page) {
    pg.Good? && pg.gen <= per.ckpt && pg.body == Rmap(RmapPage(per.base.rmap, p))
  }

  /** every acknowledged record that the checkpoint does not cover is there */
  ghost predicate AckedImg(per: Per, img: Image)
    requires RingFits(per)
  {
    forall q :: per.jtail <= q < per.acked ==> Rd(img, JrnlAt(q % JPAGES)) == Good(q, Jrnl(per.hist[q]))
  }

  /** any other good record is an older one, one of the history, or past a gap at its end */
  ghost predicate RingImg(per: Per, img: Image)
    requires RingFits(per)
  {
    forall idx :: 0 <= idx < JPAGES ==> RecordOk(per, idx, Rd(img, JrnlAt(idx)))
  }

  predicate RecordOk(per: Per, idx: nat, pg: Page)
    requires RingFits(per)
  {
    pg.Good? ==>
      && pg.body.Jrnl? && pg.gen % JPAGES == idx
      && pg.gen < per.acked + JBUF && pg.gen != |per.hist|
      && (per.jtail <= pg.gen < |per.hist| ==> pg.body.ops == per.hist[pg.gen])
  }

  ghost predicate Stored(per: Per, img: Image) {
    && RingFits(per)
    && HdrImg(per, img) && TblImg(per, img) && PmapImg(per, img) && RmapImg(per, img)
    && AckedImg(per, img) && RingImg(per, img)
  }

  // ---- loading it: the header ---------------------------------------------------------------------

  ghost predicate AllStored(per: Per, imgs: seq<Image>) {
    forall k :: 0 <= k < |imgs| ==> Stored(per, imgs[k])
  }

  lemma HeaderCopy(per: Per, imgs: seq<Image>, i: nat)
    requires AllStored(per, imgs) && i < 2
    ensures var r := Get(imgs, HdrAt(i), Newest);
      r.Found? ==> r.gen <= per.ckpt && r.gen % 2 == i && (r.gen == per.ckpt ==> r.body == HdrBody(per))
  {
    GetFinds(imgs, HdrAt(i), Newest);
    var r := Get(imgs, HdrAt(i), Newest);
    hide Get, AckedImg, RingImg, TblImg, PmapImg, RmapImg;
    if r.Found? {
      var k :| 0 <= k < |imgs| && Offers(imgs[k], HdrAt(i), Newest, r.gen, r.body);
      assert HdrCopyOk(per, i, Rd(imgs[k], HdrAt(i)));
    }
  }

  lemma HeaderFound(per: Per, imgs: seq<Image>, k: nat, want: Want)
    requires AllStored(per, imgs) && k < |imgs| && HasHdr(per, imgs[k])
    requires want == Newest || want == Exactly(per.ckpt)
    ensures Get(imgs, HdrAt(per.ckpt % 2), want) == Found(per.ckpt, HdrBody(per))
  {
    var a := HdrAt(per.ckpt % 2);
    GetFinds(imgs, a, want);
    assert Offers(imgs[k], a, want, per.ckpt, HdrBody(per));
    var r := Get(imgs, a, want);
    hide Get, AckedImg, RingImg, TblImg, PmapImg, RmapImg;
    var j :| 0 <= j < |imgs| && Offers(imgs[j], a, want, r.gen, r.body);
    assert HdrCopyOk(per, per.ckpt % 2, Rd(imgs[j], a));
  }

  lemma LoadsHeader(per: Per, imgs: seq<Image>, k: nat)
    requires AllStored(per, imgs) && PerOk(per) && k < |imgs| && HasHdr(per, imgs[k])
    ensures LoadHeader(imgs) ==
      Ok(Header(per.pct, if per.ckpt == 0 then 0 else per.base.R, if per.ckpt == 0 then 0 else per.base.O,
                per.ckpt, per.jtail, per.base.nextId, if per.ckpt == 0 then 0 else RmapPages(per.base.R)))
  {
    HeaderCopy(per, imgs, 0);
    HeaderCopy(per, imgs, 1);
    HeaderFound(per, imgs, k, Newest);
    HeaderFound(per, imgs, k, Exactly(per.ckpt));
    hide AllStored, Get, HasHdr, RmapPages, AtRest, PmapFits, RingFits, RecsOk;
  }

  // ---- the maps --------------------------------------------------------------------------------------

  /** a page every member holds reads as it is */
  lemma GetHeld(imgs: seq<Image>, a: Addr, want: Want, body: Body)
    requires imgs != [] && OfKind(a, body)
    requires forall k :: 0 <= k < |imgs| ==>
      Rd(imgs[k], a).Good? && Wanted(want, Rd(imgs[k], a).gen) && Rd(imgs[k], a).body == body
    ensures Get(imgs, a, want).Found? && Get(imgs, a, want).body == body
  {
    assert Offers(imgs[0], a, want, Rd(imgs[0], a).gen, body);
    GetAgreed(imgs, a, want, body);
  }

  /** the table's slots below n */
  function Entries(snaps: seq<Snap>, n: nat): map<nat, Tent> {
    map slot: nat | slot < n && slot < SLOTS && IndexOf(snaps, slot) < |snaps| :: EntryOf(snaps[IndexOf(snaps, slot)])
  }

  lemma EntriesStep(snaps: seq<Snap>, n: nat)
    requires n > 0
    ensures Entries(snaps, TBL_PER_PAGE * n) == Entries(snaps, TBL_PER_PAGE * (n - 1)) + TblPage(snaps, n - 1)
  {
    hide IndexOf, EntryOf;
  }

  lemma NoEntriesYet(snaps: seq<Snap>)
    ensures Entries(snaps, TBL_PER_PAGE * 0) == map[]
  {
    hide IndexOf, EntryOf;
  }

  lemma TablePageHeld(per: Per, imgs: seq<Image>, n: nat)
    requires AllStored(per, imgs) && imgs != [] && per.ckpt > 0 && n < TBL_PAGES
    ensures var r := Get(imgs, TblAt(per.ckpt % 2, n), Exactly(per.ckpt));
      r.Found? && r.body == Tbl(TblPage(per.base.snaps, n))
  {
    var page := TblPage(per.base.snaps, n);
    hide Get, AckedImg, RingImg, HdrImg, PmapImg, RmapImg, TblPage;
    forall k | 0 <= k < |imgs|
      ensures Rd(imgs[k], TblAt(per.ckpt % 2, n)) == Good(per.ckpt, Tbl(page))
    {
      assert Stored(per, imgs[k]);
    }
    hide AllStored;
    GetHeld(imgs, TblAt(per.ckpt % 2, n), Exactly(per.ckpt), Tbl(page));
  }

  lemma {:induction false} LoadsTable(per: Per, imgs: seq<Image>, n: nat)
    requires AllStored(per, imgs) && imgs != [] && per.ckpt > 0 && n <= TBL_PAGES
    ensures LoadTable(imgs, per.ckpt, n) == Ok(Entries(per.base.snaps, TBL_PER_PAGE * n))
  {
    hide Get, AllStored, Entries, TblPage;
    if n > 0 {
      LoadsTable(per, imgs, n - 1);
      TablePageHeld(per, imgs, n - 1);
      EntriesStep(per.base.snaps, n);
    } else {
      NoEntriesYet(per.base.snaps);
    }
  }

  function Least(a: nat, b: nat): nat {
    if a <= b then a else b
  }

  lemma {:induction false} LoadsPmap(per: Per, imgs: seq<Image>, n: nat)
    requires AllStored(per, imgs) && imgs != [] && per.ckpt > 0 && n <= PmapPages(|per.pmap|)
    ensures LoadPmap(imgs, per.ckpt, n) == Ok(per.pmap[..Least(|per.pmap|, PMAP_PER_PAGE * n)])
  {
    hide Get, AckedImg, RingImg, HdrImg, TblImg, RmapImg;
    if n > 0 {
      LoadsPmap(per, imgs, n - 1);
      var page := PmapPage(per.pmap, n - 1);
      forall k | 0 <= k < |imgs|
        ensures Rd(imgs[k], PmapAt(per.ckpt % 2, n - 1)) == Good(per.ckpt, Pmap(page))
      {
        assert Stored(per, imgs[k]);
      }
      GetHeld(imgs, PmapAt(per.ckpt % 2, n - 1), Exactly(per.ckpt), Pmap(page));
      assert per.pmap[..Least(|per.pmap|, PMAP_PER_PAGE * n)]
          == per.pmap[..Least(|per.pmap|, PMAP_PER_PAGE * (n - 1))] + page;
    }
  }

  /** the stored entries of the pages below n */
  function RowsBelow(rmap: map<nat, Ent>, n: nat): map<nat, Ent> {
    map P | P in rmap && P / RMAP_PER_PAGE < n :: rmap[P]
  }

  lemma RowsBelowStep(rmap: map<nat, Ent>, n: nat)
    requires n > 0
    ensures RowsBelow(rmap, n) == RowsBelow(rmap, n - 1) + RmapPage(rmap, n - 1)
  {
  }

  lemma {:induction false} LoadsRmap(per: Per, imgs: seq<Image>, n: nat)
    requires AllStored(per, imgs) && PmapFits(per) && RmapNormal(per.base) && imgs != [] && n <= |per.pmap|
    ensures LoadRmap(imgs, per.base.R, per.ckpt, per.pmap, n) == Ok(RowsBelow(per.base.rmap, n))
  {
    hide Get, AckedImg, RingImg, HdrImg, TblImg, PmapImg;
    if n > 0 {
      LoadsRmap(per, imgs, n - 1);
      RowsBelowStep(per.base.rmap, n);
      var page := RmapPage(per.base.rmap, n - 1);
      match per.pmap[n - 1] {
        case Untouched =>
          assert RowsBelow(per.base.rmap, n) == RowsBelow(per.base.rmap, n - 1);
        case Touched(slot) =>
          forall k | 0 <= k < |imgs|
            ensures RmapCopyOk(per, n - 1, Rd(imgs[k], RmapAt(slot, n - 1)))
          {
            assert Stored(per, imgs[k]);
          }
          hide AllStored;
          GetHeld(imgs, RmapAt(slot, n - 1), UpTo(per.ckpt), Rmap(page));
          assert forall P :: P in page ==> P < per.base.R;
      }
    } else {
      assert RowsBelow(per.base.rmap, 0) == map[];
    }
  }

  lemma RowsBelowAll(st: St)
    requires RmapNormal(st)
    ensures RowsBelow(st.rmap, RmapPages(st.R)) == st.rmap
  {
    forall P | P in st.rmap ensures P / RMAP_PER_PAGE < RmapPages(st.R) {
    }
  }
}
