/** The chain comes back in order, replay applies exactly the records that are there, and
    so a load gives a prefix of the history that holds every acknowledged record. */
module SnapReplay {
  import opened SnapState
  import opened SnapDerive
  import opened SnapRegion
  import opened SnapLoad
  import opened SnapStored

  // ---- the chain from the table -------------------------------------------------------------

  ghost predicate Ordered(snaps: seq<Snap>) {
    forall i, j :: 0 <= i < j < |snaps| ==> snaps[i].slot != snaps[j].slot && snaps[i].id < snaps[j].id
  }

  /** the snapshots with slots below n, in chain order, as the table has them */
  function Filtered(snaps: seq<Snap>, n: nat): seq<Snap> {
    if snaps == [] then []
    else (if snaps[0].slot < n then [Bare(snaps[0])] else []) + Filtered(snaps[1..], n)
  }

  lemma {:induction false} FilteredSame(snaps: seq<Snap>, n: nat)
    requires n > 0 && forall i :: 0 <= i < |snaps| ==> snaps[i].slot != n - 1
    ensures Filtered(snaps, n) == Filtered(snaps, n - 1)
  {
    if snaps != [] {
      FilteredSame(snaps[1..], n);
    }
  }

  lemma {:induction false} FilteredIds(snaps: seq<Snap>, n: nat, id: nat)
    requires forall i :: 0 <= i < |snaps| ==> id < snaps[i].id
    ensures Filtered(snaps, n) != [] ==> id < Filtered(snaps, n)[0].id
  {
    if snaps != [] && snaps[0].slot >= n {
      FilteredIds(snaps[1..], n, id);
    }
  }

  lemma FilteredStep(snaps: seq<Snap>, n: nat)
    requires snaps != []
    ensures Filtered(snaps, n) ==
      if snaps[0].slot < n then [Bare(snaps[0])] + Filtered(snaps[1..], n) else Filtered(snaps[1..], n)
  {
  }

  lemma InsertFirst(chain: seq<Snap>, g: Snap)
    requires chain != [] ==> g.id < chain[0].id
    ensures InsertById(chain, g) == [g] + chain
  {
  }

  lemma InsertLater(x: Snap, tail: seq<Snap>, g: Snap)
    requires x.id < g.id
    ensures InsertById([x] + tail, g) == [x] + InsertById(tail, g)
  {
    assert ([x] + tail)[1..] == tail;
  }

  /** inserting by id puts a slot's snapshot back where the chain had it */
  lemma {:induction false} FilteredInsert(snaps: seq<Snap>, i: nat, n: nat)
    requires Ordered(snaps) && i < |snaps| && n > 0 && snaps[i].slot == n - 1
    ensures InsertById(Filtered(snaps, n - 1), Bare(snaps[i])) == Filtered(snaps, n)
  {
    var rest := snaps[1..];
    assert Ordered(rest);
    hide Filtered, InsertById;
    FilteredStep(snaps, n);
    FilteredStep(snaps, n - 1);
    if i == 0 {
      FilteredSame(rest, n);
      FilteredIds(rest, n - 1, snaps[0].id);
      InsertFirst(Filtered(rest, n - 1), Bare(snaps[0]));
    } else {
      assert rest[i - 1] == snaps[i];
      FilteredInsert(rest, i - 1, n);
      assert snaps[0].slot != snaps[i].slot && snaps[0].id < snaps[i].id;
      if snaps[0].slot < n {
        InsertLater(Bare(snaps[0]), Filtered(rest, n - 1), Bare(snaps[i]));
      }
    }
  }

  lemma {:induction false} FilteredAll(snaps: seq<Snap>, n: nat)
    requires forall i :: 0 <= i < |snaps| ==> snaps[i].slot < n
    ensures Filtered(snaps, n) == BareChain(snaps)
  {
    if snaps != [] {
      FilteredAll(snaps[1..], n);
    }
  }

  lemma {:induction false} FilteredNone(snaps: seq<Snap>)
    ensures Filtered(snaps, 0) == []
  {
    if snaps != [] {
      FilteredNone(snaps[1..]);
    }
  }

  lemma {:induction false} ChainFromEntries(snaps: seq<Snap>, nextId: nat, n: nat)
    requires ChainOrdered(snaps, nextId) && n <= SLOTS
    ensures ChainOf(Entries(snaps, SLOTS), n) == Filtered(snaps, n)
  {
    if n == 0 {
      FilteredNone(snaps);
    } else {
      ChainFromEntries(snaps, nextId, n - 1);
      var i := IndexOf(snaps, n - 1);
      assert n - 1 in Entries(snaps, SLOTS) <==> i < |snaps|;
      if i < |snaps| {
        assert Ordered(snaps) && FromEntry(n - 1, EntryOf(snaps[i])) == Bare(snaps[i]);
        hide Filtered, InsertById, ChainOrdered, Ordered, FromEntry, Bare;
        FilteredInsert(snaps, i, n);
      } else {
        FilteredSame(snaps, n);
      }
    }
  }

  /** The table gives the chain back, oldest first. */
  lemma ChainRestored(snaps: seq<Snap>, nextId: nat)
    requires ChainOrdered(snaps, nextId)
    ensures ChainOf(Entries(snaps, SLOTS), SLOTS) == BareChain(snaps)
  {
    ChainFromEntries(snaps, nextId, SLOTS);
    FilteredAll(snaps, SLOTS);
  }

  // ---- dirty pages -----------------------------------------------------------------------------

  /** pages not marked are as they were at the checkpoint */
  ghost predicate DirtyCovers(base: map<nat, Ent>, v: Live) {
    && (forall p :: p in v.rdirty ==> p < RmapPages(v.st.R))
    && (forall p: nat :: p !in v.rdirty ==> RmapPage(v.st.rmap, p) == RmapPage(base, p))
  }

  lemma SetOtherPage(O: nat, rmap: map<nat, Ent>, P: nat, e: Ent, p: nat)
    requires P / RMAP_PER_PAGE != p
    ensures RmapPage(RmapSet(O, rmap, P, e), p) == RmapPage(rmap, p)
  {
  }

  lemma PageInRange(R: nat, P: nat)
    requires P < R
    ensures P / RMAP_PER_PAGE < RmapPages(R)
  {
  }

  lemma {:induction false} DropOtherPages(st: St, i: nat, n: nat, p: nat)
    requires i < |st.snaps| && p !in DropPages(st.snaps[i].exc, n)
    ensures RmapPage(DropRows(st, i, n).rmap, p) == RmapPage(st.rmap, p)
  {
    hide RmapPage, RmapSet;
    if n > 0 {
      DropOtherPages(st, i, n - 1, p);
      var s := DropRows(st, i, n - 1);
      if n - 1 in st.snaps[i].exc {
        var P := st.snaps[i].exc[n - 1];
        SetOtherPage(s.O, s.rmap, P, Ent(0, OwnFree), p);
        if i > 0 {
          SetOtherPage(s.O, s.rmap, P, Ent(n - 1, OwnSnap(s.snaps[i - 1].slot)), p);
        }
        DropRowsO(st, i, n - 1);
      }
    }
  }

  lemma {:induction false} DropRowsO(st: St, i: nat, n: nat)
    requires i < |st.snaps|
    ensures DropRows(st, i, n).O == st.O && DropRows(st, i, n).R == st.R
  {
    if n > 0 {
      DropRowsO(st, i, n - 1);
    }
  }

  lemma {:induction false} DropPagesInRange(st: St, i: nat, n: nat)
    requires ExceptionsOwned(st) && i < |st.snaps|
    ensures forall p :: p in DropPages(st.snaps[i].exc, n) ==> p < RmapPages(st.R)
  {
    if n > 0 {
      DropPagesInRange(st, i, n - 1);
      if n - 1 in st.snaps[i].exc {
        PageInRange(st.R, st.snaps[i].exc[n - 1]);
      }
    }
  }

  /** an op changes no page it does not mark */
  lemma ApplyOtherPages(st: St, op: Op, p: nat)
    requires Applicable(st, op) && p !in DirtyPages(st, op)
    ensures RmapPage(Apply(st, op).rmap, p) == RmapPage(st.rmap, p)
  {
    hide RmapPage, RmapSet;
    match op {
      case Redirect(L, oldP, newP) =>
        var e := Ent(L, OwnSnap(st.snaps[|st.snaps| - 1].slot));
        SetOtherPage(st.O, st.rmap, oldP, e, p);
        SetOtherPage(st.O, RmapSet(st.O, st.rmap, oldP, e), newP, Ent(L, OwnOrigin), p);
      case Create(_, _, _, _, _) =>
      case Destroy(slot) => DropOtherPages(st, IndexOf(st.snaps, slot), st.O, p);
      case Rename(_, _) =>
      case Set(_, _) =>
    }
  }

  lemma DirtyInRange(st: St, op: Op)
    requires Coherent(st) && OpOk(st, op)
    ensures forall p :: p in DirtyPages(st, op) ==> p < RmapPages(st.R)
  {
    match op {
      case Redirect(_, oldP, newP) =>
        PageInRange(st.R, oldP);
        PageInRange(st.R, newP);
      case Destroy(slot) =>
        CoherentParts(st);
        DropPagesInRange(st, IndexOf(st.snaps, slot), st.O);
      case _ =>
    }
  }

  lemma SameSize(st: St, op: Op)
    requires Applicable(st, op)
    ensures Apply(st, op).R == st.R && Apply(st, op).O == st.O
  {
    if op.Destroy? {
      DropRowsO(st, IndexOf(st.snaps, op.slot), st.O);
    }
  }

  lemma DirtyStep(base: map<nat, Ent>, v: Live, op: Op)
    requires Coherent(v.st) && OpOk(v.st, op) && Applicable(v.st, op) && DirtyCovers(base, v)
    ensures DirtyCovers(base, Live(Apply(v.st, op), v.rdirty + DirtyPages(v.st, op)))
  {
    DirtyInRange(v.st, op);
    SameSize(v.st, op);
    hide Coherent, OpOk, Apply, DirtyPages, RmapPage, RmapPages;
    forall p: nat | p !in v.rdirty + DirtyPages(v.st, op)
      ensures RmapPage(Apply(v.st, op).rmap, p) == RmapPage(base, p)
    {
      ApplyOtherPages(v.st, op, p);
    }
  }

  // ---- replaying ---------------------------------------------------------------------------------

  lemma OkIsValid(st: St, op: Op)
    requires AtRest(st) && OpOk(st, op)
    ensures OpValid(st, op)
  {
    CoherentParts(st);
    hide Coherent;
  }

  lemma AtRestApply(st: St, op: Op)
    requires AtRest(st) && OpOk(st, op)
    ensures Applicable(st, op) && AtRest(Apply(st, op))
  {
    CoherentParts(st);
    SettledApply(st, op);
    assert Settled(st) == st;
    SettledCoherent(Apply(st, op));
    hide Coherent, Apply;
  }

  lemma {:induction false} ReplaysOps(base: map<nat, Ent>, v: Live, ops: seq<Op>)
    requires AtRest(v.st) && OpsOk(v.st, ops) && DirtyCovers(base, v)
    ensures ReplayOps(v, ops).Ok?
    ensures var v' := ReplayOps(v, ops).value;
      v'.st == ApplyAll(v.st, ops) && AtRest(v'.st) && DirtyCovers(base, v') && v'.st.R == v.st.R && v'.st.O == v.st.O
    decreases |ops|
  {
    if ops != [] {
      var op := ops[0];
      assert Coherent(v.st) && OpOk(v.st, op);
      OkIsValid(v.st, op);
      AtRestApply(v.st, op);
      DirtyStep(base, v, op);
      SameSize(v.st, op);
      hide AtRest, Apply, OpOk, OpValid, Applicable, DirtyCovers, DirtyPages;
      ReplaysOps(base, Live(Apply(v.st, op), v.rdirty + DirtyPages(v.st, op)), ops[1..]);
    }
  }

  /** no member has a record with this number */
  ghost predicate NoRecord(imgs: seq<Image>, q: nat) {
    forall k, body :: 0 <= k < |imgs| ==> !Offers(imgs[k], JrnlAt(q % JPAGES), Exactly(q), q, body)
  }

  lemma RecordRead(per: Per, imgs: seq<Image>, q: nat)
    requires AllStored(per, imgs) && RingFits(per) && imgs != [] && per.jtail <= q <= |per.hist|
    ensures var r := Get(imgs, JrnlAt(q % JPAGES), Exactly(q));
      && (r.Found? ==> q < |per.hist| && r.body == Jrnl(per.hist[q]))
      && (q < per.acked ==> r.Found?)
      && (!r.Found? ==> NoRecord(imgs, q))
  {
    var a := JrnlAt(q % JPAGES);
    GetFinds(imgs, a, Exactly(q));
    var r := Get(imgs, a, Exactly(q));
    hide Get, HdrImg, TblImg, PmapImg, RmapImg;
    if r.Found? {
      var k :| 0 <= k < |imgs| && Offers(imgs[k], a, Exactly(q), r.gen, r.body);
      assert Stored(per, imgs[k]);
      assert RecordOk(per, q % JPAGES, Rd(imgs[k], a));
    }
    if q < per.acked {
      assert Stored(per, imgs[0]);
      assert Offers(imgs[0], a, Exactly(q), q, Jrnl(per.hist[q]));
    }
  }

  ghost predicate ReplayedTo(per: Per, imgs: seq<Image>, v: Live, j: nat)
    requires RingFits(per) && RecsOk(per.base, per.hist[per.jtail..])
  {
    && per.acked <= j <= |per.hist| && NoRecord(imgs, j)
    && RecsOk(per.base, per.hist[per.jtail..j]) && v.st == ApplyRecs(per.base, per.hist[per.jtail..j])
    && AtRest(v.st) && DirtyCovers(per.base.rmap, v) && v.st.R == per.base.R && v.st.O == per.base.O
  }

  lemma HistorySplit(per: Per, q: nat)
    requires RingFits(per) && RecsOk(per.base, per.hist[per.jtail..]) && per.jtail <= q <= |per.hist|
    ensures RecsOk(per.base, per.hist[per.jtail..q])
    ensures RecsOk(ApplyRecs(per.base, per.hist[per.jtail..q]), per.hist[q..])
  {
    assert per.hist[per.jtail..] == per.hist[per.jtail..q] + per.hist[q..];
    RecsSplit(per.base, per.hist[per.jtail..q], per.hist[q..]);
  }

  lemma HistoryStep(per: Per, q: nat)
    requires RingFits(per) && RecsOk(per.base, per.hist[per.jtail..]) && per.jtail <= q < |per.hist|
    ensures RecsOk(per.base, per.hist[per.jtail..q]) && RecsOk(per.base, per.hist[per.jtail..q + 1])
    ensures OpsOk(ApplyRecs(per.base, per.hist[per.jtail..q]), per.hist[q])
    ensures ApplyRecs(per.base, per.hist[per.jtail..q + 1]) ==
      ApplyAll(ApplyRecs(per.base, per.hist[per.jtail..q]), per.hist[q])
  {
    HistorySplit(per, q);
    HistorySplit(per, q + 1);
    assert per.hist[per.jtail..q + 1] == per.hist[per.jtail..q] + [per.hist[q]];
    RecsSplit(per.base, per.hist[per.jtail..q], [per.hist[q]]);
    assert per.hist[q..][0] == per.hist[q];
    var s := ApplyRecs(per.base, per.hist[per.jtail..q]);
    assert [per.hist[q]][1..] == [];
    assert ApplyRecs(s, [per.hist[q]]) == ApplyRecs(ApplyAll(s, per.hist[q]), []);
  }

  lemma {:induction false} Replays(per: Per, imgs: seq<Image>, v: Live, q: nat)
    requires AllStored(per, imgs) && RingFits(per) && imgs != [] && per.jtail <= q <= |per.hist|
    requires RecsOk(per.base, per.hist[per.jtail..]) && RecsOk(per.base, per.hist[per.jtail..q])
    requires v.st == ApplyRecs(per.base, per.hist[per.jtail..q])
    requires AtRest(v.st) && DirtyCovers(per.base.rmap, v) && v.st.R == per.base.R && v.st.O == per.base.O
    ensures ReplayFrom(imgs, v, q).Ok?
    ensures ReplayedTo(per, imgs, ReplayFrom(imgs, v, q).value.v, ReplayFrom(imgs, v, q).value.jhead)
    decreases |per.hist| - q
  {
    hide AllStored, RecsOk, AtRest, DirtyCovers, ApplyRecs, ReplayOps;
    RecordRead(per, imgs, q);
    hide NoRecord;
    if Get(imgs, JrnlAt(q % JPAGES), Exactly(q)).Found? {
      HistoryStep(per, q);
      ReplaysOps(per.base.rmap, v, per.hist[q]);
      Replays(per, imgs, ReplayOps(v, per.hist[q]).value, q + 1);
    }
  }
}
