/** The commit worker as it runs: page buffers, runs of pages, the ring and its tail changed in
    place (km/raid_km-snapmeta.c:454-770).  What it sends to the members is, request by request,
    a run of the acts whose crash safety SnapRun proves. */
module SnapMeta {
  import opened SnapState
  import opened SnapRegion
  import opened SnapLoad
  import opened SnapStored
  import opened SnapCheckpoint
  import opened SnapCommit
  import opened SnapRun
  import opened JournalCodec
  import SnapMaps

  /** pages one request carries at most */
  const CBUF: nat := 128

  // ---- requests as events ------------------------------------------------------------------

  /** the j-th page of a request that starts at a */
  function Nth(a: Addr, j: nat): Addr {
    match a
    case HdrAt(copy) => HdrAt(copy + j)
    case TblAt(copy, page) => TblAt(copy, page + j)
    case PmapAt(copy, page) => PmapAt(copy, page + j)
    case RmapAt(slot, page) => RmapAt(slot, page + j)
    case JrnlAt(idx) => JrnlAt(idx + j)
  }

  function PutWrites(first: Addr, pages: seq<Page>): seq<Ev> {
    seq(|pages|, j requires 0 <= j < |pages| => Write(Nth(first, j), pages[j]))
  }

  function PutSet(first: Addr, n: nat): set<Addr> {
    set j: nat | j < n :: Nth(first, j)
  }

  function PutEvents(first: Addr, pages: seq<Page>, fua: bool): seq<Ev> {
    PutWrites(first, pages) + if fua then [Fua(PutSet(first, |pages|))] else []
  }

  lemma PutOneMore(first: Addr, pages: seq<Page>, pg: Page)
    ensures PutWrites(first, pages + [pg]) == PutWrites(first, pages) + [Write(Nth(first, |pages|), pg)]
  {
  }

  lemma PlainPut(first: Addr, pages: seq<Page>)
    ensures PutEvents(first, pages, false) == PutWrites(first, pages)
  {
  }

  lemma NoPut(first: Addr)
    ensures PutWrites(first, []) == []
  {
  }

  /** before, then some of all */
  predicate Part(before: seq<Ev>, after: seq<Ev>, all: seq<Ev>) {
    before <= after && after[|before|..] <= all
  }

  lemma PartFirst(before: seq<Ev>, after: seq<Ev>, x: seq<Ev>, y: seq<Ev>)
    requires Part(before, after, x)
    ensures Part(before, after, x + y)
  {
  }

  lemma PartLater(before: seq<Ev>, after: seq<Ev>, x: seq<Ev>, y: seq<Ev>)
    requires Part(before + x, after, y)
    ensures Part(before, after, x + y)
  {
    assert after == before + x + after[|before + x|..];
    assert after[|before|..] == x + after[|before + x|..];
  }

  lemma PartOf(before: seq<Ev>, evs: seq<Ev>, all: seq<Ev>)
    requires evs <= all
    ensures Part(before, before + evs, all)
  {
    assert (before + evs)[|before|..] == evs;
  }

  // ---- the parts of a checkpoint, request by request ------------------------------------------

  lemma {:induction false} RmapPrefix(core: Core, full: bool, n: nat, m: nat)
    requires n <= m <= |core.pmap|
    ensures RmapWrites(core, full, n) <= RmapWrites(core, full, m)
  {
    if n < m {
      RmapPrefix(core, full, n, m - 1);
    }
  }

  lemma NoRmap(core: Core, full: bool)
    ensures RmapWrites(core, full, 0) == []
  {
  }

  lemma RmapStep(core: Core, full: bool, p: nat)
    requires p < |core.pmap|
    ensures RmapWrites(core, full, p + 1) == RmapWrites(core, full, p) +
      if Written(core, full, p) then
        [Write(RmapAt(OtherSlot(core.pmap[p]), p), Good(core.ckpt + 1, Rmap(RmapPage(core.st.rmap, p))))]
      else []
  {
    hide RmapPage;
  }

  lemma {:induction false} PmapPrefix(c: nat, pmap: seq<PmapEnt>, n: nat, m: nat)
    requires n <= m
    ensures PmapWrites(c, pmap, n) <= PmapWrites(c, pmap, m)
  {
    if n < m {
      PmapPrefix(c, pmap, n, m - 1);
    }
  }

  lemma {:induction false} PmapRun(c: nat, pmap: seq<PmapEnt>, p: nat, pages: seq<Page>)
    requires forall i :: 0 <= i < |pages| ==> pages[i] == Good(c, Pmap(PmapPage(pmap, p + i)))
    ensures PmapWrites(c, pmap, p + |pages|) == PmapWrites(c, pmap, p) + PutWrites(PmapAt(c % 2, p), pages)
  {
    hide PmapPage;
    if pages == [] {
      assert PutWrites(PmapAt(c % 2, p), pages) == [];
    } else {
      var n := |pages| - 1;
      PmapRun(c, pmap, p, pages[..n]);
      assert pages == pages[..n] + [pages[n]];
      PutOneMore(PmapAt(c % 2, p), pages[..n], pages[n]);
    }
  }

  lemma {:induction false} TblRun(c: nat, snaps: seq<Snap>, pages: seq<Page>)
    requires forall i :: 0 <= i < |pages| ==> pages[i] == Good(c, Tbl(TblPage(snaps, i)))
    ensures TblWrites(c, snaps, |pages|) == PutWrites(TblAt(c % 2, 0), pages)
  {
    hide TblPage;
    if pages != [] {
      var n := |pages| - 1;
      TblRun(c, snaps, pages[..n]);
      assert pages == pages[..n] + [pages[n]];
      PutOneMore(TblAt(c % 2, 0), pages[..n], pages[n]);
    }
  }

  /** adding the next snapshot of the chain to its page of the table */
  lemma TblAdd(snaps: seq<Snap>, k: nat, i: nat)
    requires k < |snaps| && snaps[k].slot < SLOTS
    requires forall a, b :: 0 <= a < b < |snaps| ==> snaps[a].slot != snaps[b].slot
    ensures TblPage(snaps[..k + 1], i) ==
      if i == snaps[k].slot / TBL_PER_PAGE then TblPage(snaps[..k], i)[snaps[k].slot := EntryOf(snaps[k])]
      else TblPage(snaps[..k], i)
  {
    forall s: nat
      ensures s in TblPage(snaps[..k + 1], i) <==>
        s in TblPage(snaps[..k], i) || (s == snaps[k].slot && i == snaps[k].slot / TBL_PER_PAGE)
      ensures s in TblPage(snaps[..k + 1], i) ==> s == snaps[k].slot || IndexOf(snaps[..k], s) < k
      ensures s in TblPage(snaps[..k + 1], i) ==>
        TblPage(snaps[..k + 1], i)[s] == EntryOf(if s == snaps[k].slot then snaps[k] else snaps[IndexOf(snaps[..k], s)])
      ensures s in TblPage(snaps[..k], i) ==>
        s != snaps[k].slot && IndexOf(snaps[..k], s) < k && TblPage(snaps[..k], i)[s] == EntryOf(snaps[IndexOf(snaps[..k], s)])
    {
      TblAddAt(snaps, k, i, s);
    }
    hide TblPage, IndexOf, EntryOf;
  }

  lemma TblAddAt(snaps: seq<Snap>, k: nat, i: nat, s: nat)
    requires k < |snaps| && snaps[k].slot < SLOTS
    requires forall a, b :: 0 <= a < b < |snaps| ==> snaps[a].slot != snaps[b].slot
    ensures s in TblPage(snaps[..k + 1], i) <==>
      s in TblPage(snaps[..k], i) || (s == snaps[k].slot && i == snaps[k].slot / TBL_PER_PAGE)
    ensures s in TblPage(snaps[..k + 1], i) ==> s == snaps[k].slot || IndexOf(snaps[..k], s) < k
    ensures s in TblPage(snaps[..k + 1], i) ==>
      TblPage(snaps[..k + 1], i)[s] == EntryOf(if s == snaps[k].slot then snaps[k] else snaps[IndexOf(snaps[..k], s)])
    ensures s in TblPage(snaps[..k], i) ==>
      && s != snaps[k].slot && IndexOf(snaps[..k], s) < k
      && TblPage(snaps[..k], i)[s] == EntryOf(snaps[IndexOf(snaps[..k], s)])
  {
    IndexSnoc(snaps[..k], snaps[k], s);
    assert snaps[..k + 1] == snaps[..k] + [snaps[k]];
    hide IndexOf, EntryOf;
  }

  lemma IndexSnoc(snaps: seq<Snap>, g: Snap, s: nat)
    requires forall a :: 0 <= a < |snaps| ==> snaps[a].slot != g.slot
    ensures IndexOf(snaps + [g], s) ==
      if s == g.slot then |snaps| else if IndexOf(snaps, s) < |snaps| then IndexOf(snaps, s) else |snaps| + 1
  {
    var all := snaps + [g];
    var r, q := IndexOf(all, s), IndexOf(snaps, s);
    assert all[|snaps|] == g && forall a :: 0 <= a < |snaps| ==> all[a] == snaps[a];
    hide IndexOf;
    assert q < |snaps| ==> all[q].slot == s;
    assert r < |snaps| ==> snaps[r].slot == s;
  }

  /** ring slots lo .. hi from jhead on are consecutive, from idx */
  predicate NoWrap(jhead: nat, lo: nat, hi: nat, idx: nat) {
    lo < hi ==> (jhead + lo) % JPAGES == idx && idx + (hi - lo) <= JPAGES
  }

  lemma RingSlot(jhead: nat, lo: nat, hi: nat, idx: nat, i: nat)
    requires NoWrap(jhead, lo, hi, idx) && lo <= i < hi
    ensures RingAt(jhead, i) == JrnlAt(idx + (i - lo))
  {
  }

  lemma {:induction false} RingRun(jhead: nat, pages: seq<Page>, lo: nat, hi: nat, idx: nat)
    requires lo <= hi <= |pages| && NoWrap(jhead, lo, hi, idx)
    ensures RingWrites(jhead, pages, lo, hi) == PutWrites(JrnlAt(idx), pages[lo..hi])
    decreases hi
  {
    if hi > lo {
      RingSlot(jhead, lo, hi, idx, hi - 1);
      RingRun(jhead, pages, lo, hi - 1, idx);
      hide RingAt;
      assert pages[lo..hi] == pages[lo..hi - 1] + [pages[hi - 1]];
      PutOneMore(JrnlAt(idx), pages[lo..hi - 1], pages[hi - 1]);
    } else {
      assert PutWrites(JrnlAt(idx), pages[lo..hi]) == [];
    }
  }

  lemma RingSetIs(jhead: nat, lo: nat, hi: nat, idx: nat)
    requires lo <= hi && NoWrap(jhead, lo, hi, idx)
    ensures RingSet(jhead, lo, hi) == PutSet(JrnlAt(idx), hi - lo)
  {
    var a, b := RingSet(jhead, lo, hi), PutSet(JrnlAt(idx), hi - lo);
    forall x | x in a ensures x in b {
      var i: nat :| lo <= i < hi && x == RingAt(jhead, i);
      RingSlot(jhead, lo, hi, idx, i);
      assert x == Nth(JrnlAt(idx), i - lo);
    }
    forall x | x in b ensures x in a {
      var j: nat :| j < hi - lo && x == Nth(JrnlAt(idx), j);
      RingSlot(jhead, lo, hi, idx, lo + j);
      assert x == RingAt(jhead, lo + j);
    }
  }

  lemma RingPutIs(jhead: nat, pages: seq<Page>, lo: nat, hi: nat, idx: nat)
    requires lo <= hi <= |pages| && NoWrap(jhead, lo, hi, idx)
    ensures RingPut(jhead, pages, lo, hi) == PutEvents(JrnlAt(idx), pages[lo..hi], true)
    ensures RingWrites(jhead, pages, lo, hi) == PutWrites(JrnlAt(idx), pages[lo..hi])
  {
    RingRun(jhead, pages, lo, hi, idx);
    RingSetIs(jhead, lo, hi, idx);
    hide RingWrites, PutWrites, RingSet, PutSet;
  }

  // ---- runs of acts -------------------------------------------------------------------------------

  /** these acts, one after the other, send evs and end in end */
  ghost predicate Ran(core: Core, acts: seq<Act>, end: Core, evs: seq<Ev>)
    decreases |acts|
  {
    if acts == [] then end == core && evs == []
    else
      && Allowed(core, acts[0]) && Events(core, acts[0]) <= evs
      && Ran(After(core, acts[0]), acts[1..], end, evs[|Events(core, acts[0])|..])
  }

  lemma {:induction false} RanMore(core: Core, acts: seq<Act>, mid: Core, evs: seq<Ev>, act: Act)
    requires Ran(core, acts, mid, evs) && Allowed(mid, act)
    ensures Ran(core, acts + [act], After(mid, act), evs + Events(mid, act))
    decreases |acts|
  {
    hide Allowed, After, Events;
    if acts == [] {
      assert [act][1..] == [];
      assert (evs + Events(mid, act))[|Events(mid, act)|..] == [];
    } else {
      var n := |Events(core, acts[0])|;
      RanMore(After(core, acts[0]), acts[1..], mid, evs[n..], act);
      assert (acts + [act])[1..] == acts[1..] + [act];
      assert (evs + Events(mid, act))[n..] == evs[n..] + Events(mid, act);
    }
  }

  // ---- ops and records ------------------------------------------------------------------------------------

  /** in a record and applied; given up before any record of it went out; given up with the
      record perhaps on some member */
  datatype Outcome = Committed | Undone | Lost

  datatype Finished = Finished(op: Op, outcome: Outcome)

  /** what becomes of the dropped ops of a batch (or of the others) */
  function Outcomes(batch: seq<Queued>, dropped: bool, outcome: Outcome): seq<Finished> {
    if batch == [] then []
    else
      var q := batch[|batch| - 1];
      Outcomes(batch[..|batch| - 1], dropped, outcome) +
      if Voided(q) == dropped then [Finished(q.op, outcome)] else []
  }

  /** Each op of the batch that was dropped, or was not, ends once and in order. */
  lemma {:induction false} OutcomeAt(batch: seq<Queued>, dropped: bool, outcome: Outcome, i: nat)
    requires i < |batch|
    ensures var all, before := Outcomes(batch, dropped, outcome), |Outcomes(batch[..i], dropped, outcome)|;
      && before <= |all|
      && ((batch[i].op.Redirect? && batch[i].failed) == dropped ==>
            before < |all| && all[before] == Finished(batch[i].op, outcome))
    ensures |Outcomes(batch, true, outcome)| + |Outcomes(batch, false, outcome)| == |batch|
  {
    var init := batch[..|batch| - 1];
    AllEnd(batch, outcome);
    if i < |init| {
      OutcomeAt(init, dropped, outcome, i);
      assert init[..i] == batch[..i];
    }
  }

  lemma {:induction false} AllEnd(batch: seq<Queued>, outcome: Outcome)
    ensures |Outcomes(batch, true, outcome)| + |Outcomes(batch, false, outcome)| == |batch|
  {
    if batch != [] {
      AllEnd(batch[..|batch| - 1], outcome);
    }
  }

  lemma {:induction false} OpsSplit(v: Live, a: seq<Op>, b: seq<Op>)
    ensures OpsOk(v.st, a + b) <==> OpsOk(v.st, a) && OpsOk(LiveOps(v, a).st, b)
    ensures OpsOk(v.st, a + b) ==> LiveOps(v, a + b) == LiveOps(LiveOps(v, a), b)
    decreases |a|
  {
    if a == [] {
      assert a + b == b;
    } else {
      assert (a + b)[0] == a[0] && (a + b)[1..] == a[1..] + b;
      if OpOk(v.st, a[0]) && Applicable(v.st, a[0]) {
        OpsSplit(Live(Apply(v.st, a[0]), v.rdirty + DirtyPages(v.st, a[0])), a[1..], b);
      }
    }
  }

  lemma {:induction false} KeptSplit(a: seq<Queued>, b: seq<Queued>)
    ensures Kept(a + b) == Kept(a) + Kept(b)
  {
    if b == [] {
      assert a + b == a;
    } else {
      assert (a + b)[..|a + b| - 1] == a + b[..|b| - 1];
      KeptSplit(a, b[..|b| - 1]);
    }
  }

  lemma FlattenSnoc(recs: seq<seq<Op>>, rec: seq<Op>)
    ensures Flatten(recs + [rec]) == Flatten(recs) + rec
  {
    assert (recs + [rec])[..|recs|] == recs;
  }

  lemma {:induction false} FlattenCons(recs: seq<seq<Op>>)
    requires recs != []
    ensures Flatten(recs) == recs[0] + Flatten(recs[1..])
  {
    var n := |recs| - 1;
    var front, last := recs[..n], recs[n];
    assert recs == front + [last];
    if front == [] {
      assert Flatten([]) == [] && recs[1..] == [];
    } else {
      hide Flatten;
      FlattenCons(front);
      assert recs[1..] == front[1..] + [last];
      FlattenSnoc(front[1..], last);
    }
    FlattenSnoc(front, last);
  }

  /** a batch cut into records is the batch */
  lemma {:induction false} RecordsFlat(v: Live, recs: seq<seq<Op>>)
    requires OpsOk(v.st, Flatten(recs))
    ensures RecsOk(v.st, recs) && LiveRecs(v, recs) == LiveOps(v, Flatten(recs))
    decreases |recs|
  {
    if recs != [] {
      FlattenCons(recs);
      OpsSplit(v, recs[0], Flatten(recs[1..]));
      LiveOpsState(v, recs[0]);
      hide LiveOps, ApplyAll, OpsOk;
      RecordsFlat(LiveOps(v, recs[0]), recs[1..]);
    }
  }

  // ---- the worker -------------------------------------------------------------------------------------

  class Worker {
    const maps: SnapMaps.Maps
    const pct: nat
    /** the slot each rmap page is in */
    const pmap: array<PmapEnt>
    /** page buffers of a checkpoint: a run, and a spare one behind it */
    const cbuf: array<Page>
    var ckpt: nat
    var jtail: nat
    var jhead: nat
    var scrub: bool
    var broken: bool
    /** everything sent to the members, in order */
    var sent: seq<Ev>
    /** how many more requests some member takes (after them no member is left) */
    var left: nat
    /** ops waiting for a record, and the ones that are done with */
    var pending: seq<Queued>
    var finished: seq<Finished>

    ghost predicate Valid()
      reads this, maps, pmap, cbuf
    {
      && maps.Valid() && Coherent(maps.View())
      && pmap.Length == RmapPages(maps.R) && cbuf.Length == CBUF + 1
    }

    ghost function View(): Core
      requires maps.LeavesWhole()
      reads this, maps, pmap
    {
      Core(maps.View(), pct, pmap[..], maps.rdirty, ckpt, jtail, jhead, scrub)
    }

    /** the worker of an array just loaded */
    constructor (maps: SnapMaps.Maps, pct: nat, pmap: array<PmapEnt>, ckpt: nat, jtail: nat, jhead: nat, left: nat)
      requires maps.Valid() && Coherent(maps.View()) && pmap.Length == RmapPages(maps.R)
      ensures Valid() && View() == Core(maps.View(), pct, pmap[..], maps.rdirty, ckpt, jtail, jhead, true)
      ensures !broken && sent == [] && pending == [] && fresh(cbuf) && this.maps == maps && this.pmap == pmap
    {
      this.maps, this.pct, this.pmap := maps, pct, pmap;
      this.ckpt, this.jtail, this.jhead, this.left := ckpt, jtail, jhead, left;
      cbuf := new Page[CBUF + 1](_ => Zero);
      scrub, broken, sent, pending, finished := true, false, [], [], [];
    }

    /** rk_sn_put: done when some member took it; otherwise it may have reached any of them */
    method Put(first: Addr, pages: seq<Page>, fua: bool) returns (ok: bool)
      modifies this`sent, this`left
      ensures ok <==> old(left) > 0
      ensures sent == old(sent) + if ok then PutEvents(first, pages, fua) else PutWrites(first, pages)
    {
      var j := 0;
      while j < |pages|
        invariant j <= |pages| && sent == old(sent) + PutWrites(first, pages[..j]) && left == old(left)
      {
        assert pages[..j + 1] == pages[..j] + [pages[j]];
        PutOneMore(first, pages[..j], pages[j]);
        sent := sent + [Write(Nth(first, j), pages[j])];
        j := j + 1;
      }
      assert pages[..j] == pages;
      ok := left > 0;
      if ok {
        left := left - 1;
        if fua {
          sent := sent + [Fua(PutSet(first, |pages|))];
        }
      }
    }

    /** rk_sn_flush_all */
    method FlushAll() returns (ok: bool)
      modifies this`sent, this`left
      ensures ok <==> old(left) > 0
      ensures sent == old(sent) + if ok then [Flush] else []
    {
      ok := left > 0;
      if ok {
        left := left - 1;
        sent := sent + [Flush];
      }
    }

    /** rk_sn_rmap_page: the entries of page p that are not the default */
    method RmapRows(p: nat) returns (rows: map<nat, Ent>)
      ensures rows == RmapPage(maps.rmap, p)
    {
      rows := map[];
      var first := p * RMAP_PER_PAGE;
      var P := first;
      while P < first + RMAP_PER_PAGE
        invariant first <= P <= first + RMAP_PER_PAGE
        invariant rows == map Q | Q in maps.rmap && first <= Q < P :: maps.rmap[Q]
      {
        if P in maps.rmap {
          rows := rows[P := maps.rmap[P]];
        }
        P := P + 1;
      }
      assert forall Q: nat :: Q / RMAP_PER_PAGE == p <==> first <= Q < P;
    }

    /** what a checkpoint reads of the in-core state */
    ghost predicate Reads(core: Core)
      reads this`ckpt, maps
    {
      core.rdirty == maps.rdirty && core.st.rmap == maps.rmap && core.st.snaps == maps.snaps && core.ckpt == ckpt
    }

    /** one more page into the run in cbuf; the run that cannot take it goes out first */
    method AddToRun(n: nat, runT: nat, runP: nat, t: nat, p: nat) returns (ok: bool, n': nat, runT': nat, runP': nat)
      requires cbuf.Length == CBUF + 1 && n <= CBUF && (n > 0 ==> runP + n <= p)
      modifies this`sent, this`left, cbuf
      ensures !ok ==> sent == old(sent) + PutWrites(RmapAt(runT, runP), old(cbuf[..n]))
      ensures ok ==> 0 < n' <= CBUF && runP' + n' == p + 1
      ensures ok ==> (sent + PutWrites(RmapAt(runT', runP'), cbuf[..n']) ==
        old(sent) + PutWrites(RmapAt(runT, runP), old(cbuf[..n])) + [Write(RmapAt(t, p), old(cbuf[CBUF]))])
    {
      n', runT', runP' := n, runT, runP;
      if n > 0 && (n == CBUF || t != runT || p != runP + n) {
        ok := Put(RmapAt(runT, runP), cbuf[..n], false);
        if !ok {
          return;
        }
        n' := 0;
      }
      assert sent + PutWrites(RmapAt(runT, runP), cbuf[..n']) ==
        old(sent) + PutWrites(RmapAt(runT, runP), old(cbuf[..n]));
      if n' == 0 {
        runP', runT' := p, t;
      }
      var run := cbuf[..n'];
      cbuf[n'] := cbuf[CBUF];
      n' := n' + 1;
      assert cbuf[..n'] == run + [old(cbuf[CBUF])];
      PutOneMore(RmapAt(runT', runP'), run, old(cbuf[CBUF]));
      ok := true;
    }

    /** the first part of a checkpoint: every changed page of the reverse map into its other
        slot, neighbours in one request */
    method WriteRmap(full: bool, ghost core: Core) returns (ok: bool)
      requires Reads(core) && core.pmap == pmap[..] && cbuf.Length == CBUF + 1
      modifies this`sent, this`left, pmap, cbuf
      ensures ok ==> sent == old(sent) + RmapWrites(core, full, |core.pmap|) && pmap[..] == NextPmap(core, full)
      ensures !ok ==> Part(old(sent), sent, RmapWrites(core, full, |core.pmap|))
    {
      hide RmapWrites, RmapPage, PutWrites;
      var n: nat, runT: nat, runP: nat, p: nat := 0, 0, 0, 0;
      NoPut(RmapAt(runT, runP));
      NoRmap(core, full);
      while p < pmap.Length
        invariant p <= pmap.Length && n <= CBUF && (n > 0 ==> runP + n <= p)
        invariant sent + PutWrites(RmapAt(runT, runP), cbuf[..n]) == old(sent) + RmapWrites(core, full, p)
        invariant forall q :: 0 <= q < p ==> pmap[q] == NextEnt(core, full, q)
        invariant forall q :: p <= q < pmap.Length ==> pmap[q] == core.pmap[q]
      {
        RmapStep(core, full, p);
        if p in maps.rdirty || (full && pmap[p].Touched?) {
          var rows := RmapRows(p);
          if rows == map[] {
            pmap[p] := Untouched;
          } else {
            var t := if pmap[p].Touched? && pmap[p].slot == 0 then 1 else 0;
            ghost var run := cbuf[..n];
            cbuf[CBUF] := Good(ckpt + 1, Rmap(rows));
            assert cbuf[..n] == run;
            ok, n, runT, runP := AddToRun(n, runT, runP, t, p);
            if !ok {
              RmapPrefix(core, full, p, |core.pmap|);
              return;
            }
            pmap[p] := Touched(t);
          }
        }
        p := p + 1;
      }
      NoPut(RmapAt(runT, runP));
      if n > 0 {
        ok := Put(RmapAt(runT, runP), cbuf[..n], false);
        if !ok {
          return;
        }
      }
      assert pmap[..] == NextPmap(core, full);
      ok := true;
    }

    /** the pmap into copy c & 1, in requests of CBUF pages */
    method WritePmap(c: nat) returns (ok: bool)
      requires cbuf.Length == CBUF + 1
      modifies this`sent, this`left, cbuf
      ensures ok ==> sent == old(sent) + PmapWrites(c, pmap[..], PmapPages(pmap.Length))
      ensures !ok ==> Part(old(sent), sent, PmapWrites(c, pmap[..], PmapPages(pmap.Length)))
    {
      hide PmapWrites, PmapPage, PutWrites, PmapPages;
      ghost var pm := pmap[..];
      var pmp := PmapPages(pmap.Length);
      var p := 0;
      NoPmap(c, pm);
      while p < pmp
        invariant p <= pmp && sent == old(sent) + PmapWrites(c, pm, p)
      {
        var n := Least(CBUF, pmp - p);
        var i := 0;
        while i < n
          invariant i <= n && sent == old(sent) + PmapWrites(c, pm, p)
          invariant forall k :: 0 <= k < i ==> cbuf[k] == Good(c, Pmap(PmapPage(pm, p + k)))
        {
          cbuf[i] := Good(c, Pmap(PmapPage(pmap[..], p + i)));
          i := i + 1;
        }
        assert |cbuf[..n]| == n;
        PmapRun(c, pm, p, cbuf[..n]);
        PlainPut(PmapAt(c % 2, p), cbuf[..n]);
        hide PutEvents;
        PmapPrefix(c, pm, p + n, pmp);
        PartOf(old(sent), PmapWrites(c, pm, p + n), PmapWrites(c, pm, pmp));
        assert old(sent) + PmapWrites(c, pm, p + n) == sent + PutWrites(PmapAt(c % 2, p), cbuf[..n]);
        ok := Put(PmapAt(c % 2, p), cbuf[..n], false);
        if !ok {
          return;
        }
        p := p + n;
      }
      ok := true;
    }

    /** one snapshot's entry into its page of the table, built in cbuf */
    method AddEntry(c: nat, k: nat)
      requires cbuf.Length == CBUF + 1 && k < |maps.snaps| && ChainOrdered(maps.snaps, maps.nextId)
      requires forall i :: 0 <= i < TBL_PAGES ==> cbuf[i] == Good(c, Tbl(TblPage(maps.snaps[..k], i)))
      modifies cbuf
      ensures forall i :: 0 <= i < TBL_PAGES ==> cbuf[i] == Good(c, Tbl(TblPage(maps.snaps[..k + 1], i)))
    {
      var g := maps.snaps[k];
      forall i | 0 <= i < TBL_PAGES
        ensures TblPage(maps.snaps[..k + 1], i) ==
          if i == g.slot / TBL_PER_PAGE then TblPage(maps.snaps[..k], i)[g.slot := EntryOf(g)]
          else TblPage(maps.snaps[..k], i)
      {
        TblAdd(maps.snaps, k, i);
      }
      hide TblPage, EntryOf;
      var at := g.slot / TBL_PER_PAGE;
      cbuf[at] := Good(c, Tbl(cbuf[at].body.ents[g.slot := EntryOf(g)]));
    }

    /** the pages of the table into cbuf */
    method FillTable(c: nat)
      requires cbuf.Length == CBUF + 1 && ChainOrdered(maps.snaps, maps.nextId)
      modifies cbuf
      ensures forall i :: 0 <= i < TBL_PAGES ==> cbuf[i] == Good(c, Tbl(TblPage(maps.snaps, i)))
    {
      var i := 0;
      NoEntries(maps.snaps);
      hide TblPage;
      while i < TBL_PAGES
        invariant i <= TBL_PAGES
        invariant forall k :: 0 <= k < i ==> cbuf[k] == Good(c, Tbl(TblPage(maps.snaps[..0], k)))
      {
        cbuf[i] := Good(c, Tbl(map[]));
        i := i + 1;
      }
      var k := 0;
      while k < |maps.snaps|
        invariant k <= |maps.snaps|
        invariant forall i :: 0 <= i < TBL_PAGES ==> cbuf[i] == Good(c, Tbl(TblPage(maps.snaps[..k], i)))
      {
        AddEntry(c, k);
        k := k + 1;
      }
      assert maps.snaps[..k] == maps.snaps;
    }

    /** the table into copy c & 1 */
    method WriteTable(c: nat) returns (ok: bool)
      requires cbuf.Length == CBUF + 1 && ChainOrdered(maps.snaps, maps.nextId)
      modifies this`sent, this`left, cbuf
      ensures ok ==> sent == old(sent) + TblWrites(c, maps.snaps, TBL_PAGES)
      ensures !ok ==> Part(old(sent), sent, TblWrites(c, maps.snaps, TBL_PAGES))
    {
      FillTable(c);
      hide TblPage, TblWrites, PutWrites;
      TblRun(c, maps.snaps, cbuf[..TBL_PAGES]);
      PartOf(sent, TblWrites(c, maps.snaps, TBL_PAGES), TblWrites(c, maps.snaps, TBL_PAGES));
      ok := Put(TblAt(c % 2, 0), cbuf[..TBL_PAGES], false);
    }

    /** pmap and table, and a flush behind them */
    method WriteTables(c: nat) returns (ok: bool)
      requires cbuf.Length == CBUF + 1 && ChainOrdered(maps.snaps, maps.nextId)
      modifies this`sent, this`left, cbuf
      ensures ok ==> sent == old(sent) + TableEvents(c, pmap[..], maps.snaps)
      ensures !ok ==> Part(old(sent), sent, TableEvents(c, pmap[..], maps.snaps))
    {
      hide PmapWrites, TblWrites, PmapPages;
      ghost var pm := pmap[..];
      assert |pm| == pmap.Length;
      ghost var x, y := PmapWrites(c, pm, PmapPages(|pm|)), TblWrites(c, maps.snaps, TBL_PAGES);
      assert TableEvents(c, pm, maps.snaps) == x + y + [Flush];
      ok := WritePmap(c);
      if !ok {
        PartFirst(old(sent), sent, x, y);
        PartFirst(old(sent), sent, x + y, [Flush]);
        return;
      }
      ok := WriteTable(c);
      if !ok {
        PartLater(old(sent), sent, x, y);
        PartFirst(old(sent), sent, x + y, [Flush]);
        return;
      }
      PartOf(old(sent), x + y, x + y + [Flush]);
      assert sent == old(sent) + (x + y) && sent + [Flush] == old(sent) + (x + y + [Flush]);
      ok := FlushAll();
      assert pmap[..] == pm;
    }

    /** everything before the header */
    method WriteBody(full: bool, ghost core: Core) returns (ok: bool)
      requires Reads(core) && core.pmap == pmap[..] && cbuf.Length == CBUF + 1
      requires ChainOrdered(maps.snaps, maps.nextId)
      modifies this`sent, this`left, pmap, cbuf
      ensures ok ==> sent == old(sent) + BodyEvents(core, full) && pmap[..] == NextPmap(core, full)
      ensures !ok ==> Part(old(sent), sent, BodyEvents(core, full))
    {
      hide RmapWrites, TableEvents, NextPmap;
      ghost var x := RmapWrites(core, full, |core.pmap|);
      ghost var y := TableEvents(core.ckpt + 1, NextPmap(core, full), core.st.snaps);
      ok := WriteRmap(full, core);
      if !ok {
        PartFirst(old(sent), sent, x, [Flush]);
        PartFirst(old(sent), sent, x + [Flush], y);
        return;
      }
      PartOf(old(sent), x, x + [Flush] + y);
      ok := FlushAll();
      if !ok {
        return;
      }
      ok := WriteTables(ckpt + 1);
      if !ok {
        PartLater(old(sent), sent, x + [Flush], y);
      }
    }

    /** ... and the header, forced */
    method WriteCheckpoint(full: bool, ghost core: Core) returns (ok: bool)
      requires Reads(core) && core.pmap == pmap[..] && cbuf.Length == CBUF + 1
      requires ChainOrdered(maps.snaps, maps.nextId)
      requires core.pct == pct && core.jhead == jhead
      requires core.st.R == maps.R && core.st.O == maps.O && core.st.nextId == maps.nextId
      modifies this`sent, this`left, pmap, cbuf
      ensures ok ==> sent == old(sent) + CheckpointEvents(core, full) && pmap[..] == NextPmap(core, full)
      ensures !ok ==> Part(old(sent), sent, CheckpointEvents(core, full))
    {
      hide BodyEvents, NextPmap, RmapPages;
      var c := ckpt + 1;
      ok := WriteBody(full, core);
      if !ok {
        PartFirst(old(sent), sent, BodyEvents(core, full), HdrEvents(core));
        return;
      }
      HeaderPut(core, c);
      ok := Put(HdrAt(c % 2), [Good(c, Hdr(pct, maps.R, maps.O, c, jhead, maps.nextId, RmapPages(maps.R)))], true);
      hide PutEvents, PutWrites;
      if !ok {
        PartOf(old(sent), BodyEvents(core, full) + HdrEvents(core)[..1], CheckpointEvents(core, full));
      }
    }

    lemma CheckpointReads()
      requires Valid()
      ensures Reads(View()) && ChainOrdered(maps.snaps, maps.nextId)
    {
      CoherentParts(maps.View());
      hide Coherent;
    }

    /** rk_sn_checkpoint */
    method Checkpoint(full: bool) returns (ok: bool)
      requires Valid()
      modifies this`ckpt, this`jtail, this`broken, this`sent, this`left, maps`rdirty, pmap, cbuf
      ensures Valid() && broken == (!ok || old(broken))
      ensures ok ==> !broken && View() == AfterCheckpoint(old(View()), full)
      ensures ok ==> sent == old(sent) + CheckpointEvents(old(View()), full)
      ensures !ok ==> Part(old(sent), sent, CheckpointEvents(old(View()), full))
      ensures !ok ==> maps.View() == old(maps.View()) && ckpt == old(ckpt) && jtail == old(jtail)
    {
      hide Coherent, CheckpointEvents, NextPmap, RmapPages;
      ghost var core := View();
      PartOf(sent, [], CheckpointEvents(core, full));
      assert sent + [] == sent;
      if broken {
        ok := false;
        return;
      }
      CheckpointReads();
      ok := WriteCheckpoint(full, core);
      if ok {
        ckpt, jtail := ckpt + 1, jhead;
        maps.rdirty := {};
      } else {
        broken := true;
      }
    }

    /** pages into the ring from jhead on, forced; two requests where it wraps */
    method PutRing(pages: seq<Page>) returns (ok: bool)
      requires 0 < |pages| <= JBUF
      modifies this`sent, this`left
      ensures ok ==> sent == old(sent) + RingEvents(jhead, pages)
      ensures !ok ==> Part(old(sent), sent, RingEvents(jhead, pages))
    {
      hide RingPut, RingWrites, PutWrites, PutEvents;
      var idx := jhead % JPAGES;
      var first := Least(|pages|, JPAGES - idx);
      ghost var x, y := RingPut(jhead, pages, 0, first), RingPut(jhead, pages, first, |pages|);
      assert pages[0..first] == pages[..first] && pages[first..|pages|] == pages[first..];
      RingPutIs(jhead, pages, 0, first, idx);
      RingPutIs(jhead, pages, first, |pages|, 0);
      RingFailed(jhead, pages, 0, first, old(sent));
      RingFailed(jhead, pages, first, |pages|, old(sent) + x);
      ok := Put(JrnlAt(idx), pages[..first], true);
      if !ok {
        PartFirst(old(sent), sent, x, if first < |pages| then y else []);
      } else if first < |pages| {
        ok := Put(JrnlAt(0), pages[first..], true);
        if !ok {
          PartLater(old(sent), sent, x, y);
        }
      }
    }

    /** rk_sn_scrub_ring */
    method ScrubRing() returns (ok: bool)
      modifies this`sent, this`left, this`scrub
      ensures ok ==> sent == old(sent) + RingEvents(jhead, NoPages()) && !scrub
      ensures !ok ==> Part(old(sent), sent, RingEvents(jhead, NoPages())) && scrub == old(scrub)
    {
      ok := PutRing(NoPages());
      if ok {
        scrub := false;
      }
    }

    /** rk_sn_settle: what a load replayed goes into a checkpoint, then the ring is scrubbed */
    method Settle() returns (ok: bool)
      requires Valid() && !broken
      modifies this`ckpt, this`jtail, this`broken, this`scrub, this`sent, this`left, maps`rdirty, pmap, cbuf
      ensures Valid() && maps.View() == old(maps.View())
      ensures ok ==> !broken && !scrub && (old(scrub) ==> jhead == jtail)
      ensures ok && !old(scrub) ==> jtail == old(jtail)
      ensures ok ==> Went(old(View()), View(), old(sent), sent)
      ensures !ok ==> Stopped(old(View()), old(sent), sent)
      ensures NoneSent(old(sent), sent)
    {
      ghost var core := View();
      hide Coherent, CheckpointEvents, RingEvents, AfterCheckpoint, Went, Stopped, NoneSent, NextPmap;
      WentNowhere(core, sent);
      ok := true;
      if !scrub {
        return;
      }
      ghost var mid := core;
      if jhead != jtail {
        ok := Checkpoint(false);
        CheckpointWent(core, core, old(sent), old(sent), false, sent, ok);
        CheckpointNoneSent(core, false, old(sent), sent);
        if !ok {
          return;
        }
        mid := View();
        assert mid.jhead == mid.jtail && mid.scrub by { AfterCheckpointIs(core, false); }
      }
      ghost var before := sent;
      ok := ScrubRing();
      ScrubWent(core, mid, old(sent), before, sent, ok);
      ScrubNoneSent(jhead, before, sent);
      NoneSentOn(old(sent), before, sent);
    }

    /** half the ring is free before a commit that needs no settling */
    predicate Room()
      reads this
    {
      broken || scrub || jhead < jtail + JPAGES / 2
    }

    /** rk_snap_apply, op by op */
    method ApplyOps(ops: seq<Op>)
      requires maps.Valid() && Coherent(maps.View()) && OpsOk(maps.View(), ops)
      modifies maps
      ensures maps.Valid() && Coherent(maps.View())
      ensures Live(maps.View(), maps.rdirty) == LiveOps(Live(old(maps.View()), old(maps.rdirty)), ops)
    {
      hide Coherent, OpOk, Apply, Applicable, DirtyPages;
      var i := 0;
      assert ops[0..] == ops;
      while i < |ops|
        invariant i <= |ops| && maps.Valid() && Coherent(maps.View()) && OpsOk(maps.View(), ops[i..])
        invariant LiveOps(Live(maps.View(), maps.rdirty), ops[i..])
               == LiveOps(Live(old(maps.View()), old(maps.rdirty)), ops)
      {
        assert ops[i..][0] == ops[i] && ops[i..][1..] == ops[i + 1..];
        ApplyCoherent(maps.View(), ops[i]);
        maps.ApplyOp(ops[i]);
        i := i + 1;
      }
    }

    method FinishAll(batch: seq<Queued>, dropped: bool, outcome: Outcome)
      modifies this`finished
      ensures finished == old(finished) + Outcomes(batch, dropped, outcome)
    {
      var i := 0;
      while i < |batch|
        invariant i <= |batch| && finished == old(finished) + Outcomes(batch[..i], dropped, outcome)
      {
        assert batch[..i + 1][..i] == batch[..i];
        if Voided(batch[i]) == dropped {
          finished := finished + [Finished(batch[i].op, outcome)];
        }
        i := i + 1;
      }
      assert batch[..i] == batch;
    }

    /** a flush where a record depends on data, then the records */
    method SendRecords(recs: seq<seq<Op>>, data: bool) returns (outcome: Outcome)
      requires 0 < |recs| <= JBUF
      modifies this`jhead, this`sent, this`left
      ensures outcome.Committed? ==> jhead == old(jhead) + |recs|
      ensures outcome.Committed? ==> sent == old(sent) + SendEvents(old(jhead), recs, data)
      ensures !outcome.Committed? ==> jhead == old(jhead) && Part(old(sent), sent, SendEvents(jhead, recs, data))
      ensures outcome.Undone? ==> sent == old(sent)
    {
      hide RingEvents, RecordPages;
      ghost var x: seq<Ev> := if data then [Flush] else [];
      ghost var y := RingEvents(jhead, RecordPages(jhead, recs));
      assert |RecordPages(jhead, recs)| == |recs| by { RecordPagesSize(jhead, recs); }
      PartOf(sent, [], x + y);
      assert sent + [] == sent;
      if data {
        var ok := FlushAll();
        if !ok {
          return Undone;
        }
      }
      assert sent == old(sent) + x;
      var ok := PutRing(RecordPages(jhead, recs));
      if !ok {
        PartLater(old(sent), sent, x, y);
        return Lost;
      }
      assert sent == old(sent) + (x + y);
      jhead := jhead + |recs|;
      outcome := Committed;
    }

    /** the records of a batch to the members: settle, data, ring */
    method Send(recs: seq<seq<Op>>, data: bool) returns (outcome: Outcome)
      requires Valid() && Room() && 0 < |recs| <= JBUF && RecsOk(maps.View(), recs)
      modifies this`ckpt, this`jtail, this`jhead, this`broken, this`scrub, this`sent, this`left, maps`rdirty, pmap, cbuf
      ensures Valid() && maps.View() == old(maps.View())
      ensures outcome.Undone? ==> NoneSent(old(sent), sent)
      ensures !outcome.Committed? ==> broken && jhead == old(jhead)
      ensures old(broken) ==> !outcome.Committed? && sent == old(sent)
      ensures !outcome.Committed? && !old(broken) ==> Stopped(old(View()), old(sent), sent)
      ensures outcome.Committed? ==> !broken && jhead == old(jhead) + |recs|
      ensures outcome.Committed? ==>
        exists mid :: CommitSent(old(View()), mid, old(sent), sent, recs, data)
                      && mid.jhead == old(jhead) && mid.(jhead := jhead) == View()
      ensures data ==> FlushedFirst(old(sent), sent)
    {
      hide Coherent, Went, Stopped, RecsOk, SendEvents, CommitSent, NoneSent, FlushedFirst;
      NoMoreSent(sent);
      ghost var core := View();
      WentNowhere(core, sent);
      if broken {
        return Undone;
      }
      var ok := Settle();
      NoneIsFlushed(old(sent), sent);
      if !ok {
        broken := true;
        return Undone;
      }
      ghost var mid, sofar := View(), sent;
      assert CanCommit(mid, recs);
      outcome := SendRecords(recs, data);
      SentOrStopped(core, mid, old(sent), sofar, recs, data, sent, outcome.Committed?);
      if data {
        SendFlushed(sofar, sent, mid.jhead, recs);
        FlushedOn(old(sent), sofar, sent);
      }
      if !outcome.Committed? {
        broken := true;
      }
    }

    /** does a record of the batch say something about data? */
    method NeedsData(batch: seq<Queued>) returns (data: bool)
      ensures data == exists i :: 0 <= i < |batch| && SaysData(batch[i])
    {
      var i := 0;
      data := false;
      while i < |batch|
        invariant i <= |batch|
        invariant data == exists k :: 0 <= k < i && SaysData(batch[k])
      {
        if !Voided(batch[i]) && (batch[i].op.Redirect? || batch[i].op.Create?) {
          data := true;
        }
        i := i + 1;
      }
    }

    /** a batch in records: sent and, where they are durable, applied */
    method CommitBatch(recs: seq<seq<Op>>, ops: seq<Op>, data: bool) returns (outcome: Outcome)
      requires Valid() && Room() && 0 < |recs| <= JBUF && ops == Flatten(recs) && OpsOk(maps.View(), ops)
      modifies this`ckpt, this`jtail, this`jhead, this`broken, this`scrub, this`sent, this`left, maps, pmap, cbuf
      ensures Valid()
      ensures outcome.Undone? ==> NoneSent(old(sent), sent)
      ensures !outcome.Committed? ==> broken && maps.View() == old(maps.View())
      ensures old(broken) ==> !outcome.Committed? && sent == old(sent)
      ensures !outcome.Committed? && !old(broken) ==> Stopped(old(View()), old(sent), sent)
      ensures outcome.Committed? ==> !broken && Went(old(View()), View(), old(sent), sent)
      ensures outcome.Committed? ==> maps.View() == ApplyAll(old(maps.View()), ops)
      ensures data ==> FlushedFirst(old(sent), sent)
    {
      hide Coherent, Went, Stopped, OpsOk, RecsOk, LiveOps, LiveRecs, Flatten, NoneSent, CommitSent, CanCommit;
      hide FlushedFirst;
      ghost var core := View();
      RecordsFlat(Live(core.st, core.rdirty), recs);
      LiveOpsState(Live(core.st, core.rdirty), ops);
      outcome := Send(recs, data);
      if outcome.Committed? {
        ghost var mid :| CommitSent(core, mid, old(sent), sent, recs, data)
                         && mid.jhead == old(jhead) && mid.(jhead := jhead) == View();
        ApplyOps(ops);
        RecordsFlat(Live(mid.st, mid.rdirty), recs);
        LiveOpsState(Live(mid.st, mid.rdirty), ops);
        CommitWent(core, mid, old(sent), sent, recs, data);
        AfterCommitIs(mid, recs, View());
      }
    }

    /** One round of rk_sn_commit_fn: what is pending into records as far as they go, the rest
        back in front of what arrived meanwhile. */
    method Round(arrived: seq<Queued>) returns (cut: nat, outcome: Outcome)
      requires Valid() && Room() && pending != []
      requires forall i :: 0 <= i < |pending| ==> Wire(pending[i].op)
      requires OpsOk(maps.View(), Kept(pending))
      modifies this, maps, pmap, cbuf
      ensures Valid() && Room()
      ensures 0 < cut <= |old(pending)| && pending == old(pending)[cut..] + arrived
      ensures finished == old(finished) + Outcomes(old(pending)[..cut], true, Undone)
                       + Outcomes(old(pending)[..cut], false, outcome)
      ensures OpsOk(old(maps.View()), Kept(old(pending)[..cut]))
      ensures maps.View() == if outcome.Committed? then ApplyAll(old(maps.View()), Kept(old(pending)[..cut]))
                             else old(maps.View())
      ensures outcome.Committed? ==> OpsOk(maps.View(), Kept(old(pending)[cut..]))
      ensures outcome.Undone? ==> NoneSent(old(sent), sent)
      ensures !outcome.Committed? ==> broken
      ensures old(broken) ==> sent == old(sent)
      ensures !broken ==> Went(old(View()), View(), old(sent), sent)
      ensures broken && !old(broken) ==> Stopped(old(View()), old(sent), sent)
      ensures (exists i :: 0 <= i < cut && SaysData(old(pending)[i])) ==> FlushedFirst(old(sent), sent)
    {
      hide Coherent, Went, Stopped, OpsOk, NoneSent, Kept, Flatten, Outcomes, Wire, Packing, SizeAll, Size;
      hide FlushedFirst;
      NoMoreSent(sent);
      ghost var core := View();
      var batch := pending;
      pending := [];
      var recs, pages, n := Pack(jhead, batch);
      cut := n;
      pending := batch[n..] + arrived;
      BatchSplit(core, batch, n);
      FinishAll(batch[..n], true, Undone);
      outcome := CommitTaken(batch[..n], recs);
      ghost var sofar := sent;
      FinishAll(batch[..n], false, outcome);
      Tidy(core, old(sent));
      SentThen(old(sent), sofar, sent);
    }

    /** the part of a batch that went into these records */
    method CommitTaken(batch: seq<Queued>, recs: seq<seq<Op>>) returns (outcome: Outcome)
      requires Valid() && Room() && |recs| <= JBUF && Kept(batch) == Flatten(recs) && OpsOk(maps.View(), Kept(batch))
      modifies this`ckpt, this`jtail, this`jhead, this`broken, this`scrub, this`sent, this`left, maps, pmap, cbuf
      ensures Valid()
      ensures outcome.Undone? ==> NoneSent(old(sent), sent)
      ensures !outcome.Committed? ==> broken && maps.View() == old(maps.View())
      ensures old(broken) ==> broken && sent == old(sent)
      ensures broken && !old(broken) ==> Stopped(old(View()), old(sent), sent)
      ensures !broken ==> Went(old(View()), View(), old(sent), sent)
      ensures outcome.Committed? ==> maps.View() == ApplyAll(old(maps.View()), Kept(batch))
      ensures (exists i :: 0 <= i < |batch| && SaysData(batch[i])) ==> FlushedFirst(old(sent), sent)
      ensures old(broken) ==> NoneSent(old(sent), sent)
    {
      ghost var core := View();
      hide *;
      NoMoreSent(sent);
      WentNowhere(core, sent);
      outcome := Committed;
      if recs != [] {
        var data := NeedsData(batch);
        outcome := CommitBatch(recs, Kept(batch), data);
      } else {
        NoRecords(maps.View(), recs);
      }
    }

    /** once half the ring is in use, a checkpoint */
    method Tidy(ghost core: Core, ghost before: seq<Ev>)
      requires Valid() && (!broken ==> Went(core, View(), before, sent))
      modifies this`ckpt, this`jtail, this`broken, this`sent, this`left, maps`rdirty, pmap, cbuf
      ensures Valid() && Room() && maps.View() == old(maps.View())
      ensures !broken ==> Went(core, View(), before, sent)
      ensures broken && !old(broken) ==> Stopped(core, before, sent)
      ensures old(broken) ==> broken && sent == old(sent)
      ensures NoneSent(old(sent), sent)
    {
      hide Coherent, Went, Stopped, NoneSent, NextPmap, CheckpointEvents;
      NoMoreSent(sent);
      if !broken && jhead >= jtail + JPAGES / 2 {
        ghost var mid, sofar := View(), sent;
        var ok := Checkpoint(false);
        CheckpointWent(core, mid, before, sofar, false, sent, ok);
        AfterCheckpointIs(mid, false);
        CheckpointNoneSent(mid, false, sofar, sent);
      }
    }
  }

  /** a record of it says that data is there: a COW's, and a new snapshot's */
  predicate SaysData(q: Queued) {
    (q.op.Redirect? && !q.failed) || q.op.Create?
  }

  /** the part that went into records, and what is left, both still apply */
  lemma BatchSplit(core: Core, batch: seq<Queued>, n: nat)
    requires n <= |batch| && OpsOk(core.st, Kept(batch))
    ensures OpsOk(core.st, Kept(batch[..n]))
    ensures OpsOk(ApplyAll(core.st, Kept(batch[..n])), Kept(batch[n..]))
  {
    assert batch == batch[..n] + batch[n..];
    KeptSplit(batch[..n], batch[n..]);
    hide Kept;
    OpsSplit(Live(core.st, core.rdirty), Kept(batch[..n]), Kept(batch[n..]));
    LiveOpsState(Live(core.st, core.rdirty), Kept(batch[..n]));
  }

  /** the act done, with every member still there */
  function Moved(s: Sys, act: Act, core: Core): Sys {
    Sys(core, map m | m in s.disks :: DoAll(s.disks[m], Events(s.core, act)), Issued(s, act),
        if act.Commit? || act.Checkpoint? then |Issued(s, act)| else s.acked)
  }

  lemma MovedNext(s: Sys, act: Act)
    requires Allowed(s.core, act)
    ensures var u := Moved(s, act, After(s.core, act));
      && Next(s, Done(act, {}), u) && u.core == After(s.core, act) && u.disks.Keys == s.disks.Keys
      && forall m :: m in s.disks ==> u.disks[m] == DoAll(s.disks[m], Events(s.core, act))
  {
    hide Allowed, After, Events, DoAll;
  }

  lemma RanParts(core: Core, acts: seq<Act>, end: Core, evs: seq<Ev>)
    requires Ran(core, acts, end, evs)
    ensures acts == [] ==> end == core && evs == []
    ensures acts != [] ==>
      (Allowed(core, acts[0]) && |Events(core, acts[0])| <= |evs|
       && evs == Events(core, acts[0]) + evs[|Events(core, acts[0])|..]
       && Ran(After(core, acts[0]), acts[1..], end, evs[|Events(core, acts[0])|..]))
  {
    hide Allowed, After, Events;
  }

  lemma MoveFirst(s: Sys, mv: Move, u: Sys, rest: seq<Move>, t: Sys)
    requires Next(s, mv, u) && Reaches(u, rest, t)
    ensures Reaches(s, [mv] + rest, t)
  {
    hide Next;
    assert ([mv] + rest)[1..] == rest;
  }

  /** What the worker sent until now is some of the acts of a run: whatever a power cut leaves
      of it, SnapRun's theorems say what a load finds. */
  lemma {:induction false} WentReaches(s: Sys, acts: seq<Act>, end: Core, evs: seq<Ev>) returns (moves: seq<Move>,
          t: Sys)
    requires Ran(s.core, acts, end, evs)
    ensures Reaches(s, moves, t) && t.core == end && t.disks.Keys == s.disks.Keys
    ensures forall m :: m in s.disks ==> t.disks[m] == DoAll(s.disks[m], evs)
    decreases |acts|
  {
    hide *;
    RanParts(s.core, acts, end, evs);
    if acts == [] {
      moves, t := [], s;
      NothingSent(s);
    } else {
      var act := acts[0];
      var n, u := |Events(s.core, act)|, Moved(s, act, After(s.core, act));
      MovedNext(s, act);
      var rest;
      rest, t := WentReaches(u, acts[1..], end, evs[n..]);
      moves := [Done(act, {})] + rest;
      MoveFirst(s, Done(act, {}), u, rest, t);
      forall m | m in s.disks ensures t.disks[m] == DoAll(s.disks[m], evs) {
        assert m in u.disks;
        DoAllSplit(s.disks[m], Events(s.core, act), evs[n..]);
      }
    }
  }

  lemma NothingSent(s: Sys)
    ensures Reaches(s, [], s) && forall m :: m in s.disks ==> s.disks[m] == DoAll(s.disks[m], [])
  {
  }

  lemma NoRecords(st: St, recs: seq<seq<Op>>)
    requires recs == []
    ensures Flatten(recs) == [] && OpsOk(st, []) && ApplyAll(st, []) == st
  {
  }

  lemma CommitWent(core: Core, mid: Core, before: seq<Ev>, after: seq<Ev>, recs: seq<seq<Op>>, data: bool)
    requires CommitSent(core, mid, before, after, recs, data)
    ensures CanCommit(mid, recs) && Went(core, AfterCommit(mid, recs), before, after)
  {
    hide Went, CanCommit, AfterCommit, CommitEvents;
    var sofar :| Went(core, mid, before, sofar) && after == sofar + CommitEvents(mid, recs, data);
    WentOn(core, mid, before, sofar, Commit(recs, data), after, true);
  }

  lemma AfterCommitIs(mid: Core, recs: seq<seq<Op>>, end: Core)
    requires CanCommit(mid, recs)
    requires Live(end.st, end.rdirty) == LiveRecs(Live(mid.st, mid.rdirty), recs)
    requires end == mid.(st := end.st, rdirty := end.rdirty, jhead := mid.jhead + |recs|)
    ensures end == AfterCommit(mid, recs)
  {
    hide LiveRecs;
  }

  function SendEvents(jhead: nat, recs: seq<seq<Op>>, data: bool): seq<Ev> {
    (if data then [Flush] else []) + RingEvents(jhead, RecordPages(jhead, recs))
  }

  lemma RecordPagesSize(jhead: nat, recs: seq<seq<Op>>)
    ensures |RecordPages(jhead, recs)| == |recs|
  {
  }

  lemma SentOrStopped(core: Core, mid: Core, before: seq<Ev>, sofar: seq<Ev>, recs: seq<seq<Op>>, data: bool,
                      after: seq<Ev>, ok: bool)
    requires Went(core, mid, before, sofar) && CanCommit(mid, recs)
    requires ok ==> after == sofar + SendEvents(mid.jhead, recs, data)
    requires !ok ==> Part(sofar, after, SendEvents(mid.jhead, recs, data))
    ensures ok ==> CommitSent(core, mid, before, after, recs, data)
    ensures !ok ==> Stopped(core, before, after)
  {
    assert SendEvents(mid.jhead, recs, data) == CommitEvents(mid, recs, data);
    assert Allowed(mid, Commit(recs, data)) && Events(mid, Commit(recs, data)) == CommitEvents(mid, recs, data);
    hide Went, CanCommit, SendEvents, CommitEvents, Allowed, Events;
    if !ok {
      WentOn(core, mid, before, sofar, Commit(recs, data), after, false);
    }
  }

  // ---- how far a round got ------------------------------------------------------------------------------

  /** acts of the protocol lead from core to end, sending what is in after behind before */
  predicate IsRecord(ev: Ev) {
    ev.Write? && ev.a.JrnlAt? && ev.pg != Zero
  }

  /** each record sent since then comes after a flush sent since then */
  ghost predicate FlushedFirst(before: seq<Ev>, after: seq<Ev>) {
    before <= after
    && forall i :: |before| <= i < |after| && IsRecord(after[i]) ==> exists k :: |before| <= k < i && after[k].Flush?
  }

  ghost predicate Went(core: Core, end: Core, before: seq<Ev>, after: seq<Ev>) {
    exists acts, evs :: Ran(core, acts, end, evs) && after == before + evs
  }

  /** ... and here one of them was not completed */
  ghost predicate Stopped(core: Core, before: seq<Ev>, after: seq<Ev>) {
    exists mid, sofar, act :: Went(core, mid, before, sofar) && Cut(mid, act, sofar, after)
  }

  /** settled in mid, then all of a commit of these records */
  ghost predicate CommitSent(core: Core, mid: Core, before: seq<Ev>, after: seq<Ev>, recs: seq<seq<Op>>, data: bool) {
    CanCommit(mid, recs)
    && exists sofar :: Went(core, mid, before, sofar) && after == sofar + CommitEvents(mid, recs, data)
  }

  ghost predicate Cut(mid: Core, act: Act, sofar: seq<Ev>, after: seq<Ev>) {
    Allowed(mid, act) && Part(sofar, after, Events(mid, act))
  }

  /** no journal record went out */
  ghost predicate NoneSent(before: seq<Ev>, after: seq<Ev>) {
    before <= after && forall i :: |before| <= i < |after| && after[i].Write? && after[i].a.JrnlAt? ==> after[i].pg == Zero
  }

  lemma WentNowhere(core: Core, sent: seq<Ev>)
    ensures Went(core, core, sent, sent) && NoneSent(sent, sent)
  {
    assert Ran(core, [], core, []);
    assert sent == sent + [];
  }

  lemma NoMoreSent(evs: seq<Ev>)
    ensures NoneSent(evs, evs) && FlushedFirst(evs, evs)
  {
  }

  lemma NoneIsFlushed(before: seq<Ev>, after: seq<Ev>)
    requires NoneSent(before, after)
    ensures FlushedFirst(before, after)
  {
  }

  lemma FlushedOn(before: seq<Ev>, mid: seq<Ev>, after: seq<Ev>)
    requires NoneSent(before, mid) && FlushedFirst(mid, after)
    ensures FlushedFirst(before, after)
  {
    assert forall i :: |before| <= i < |mid| ==> after[i] == mid[i] && !IsRecord(mid[i]);
    forall i | |mid| <= i < |after| && IsRecord(after[i])
      ensures exists k :: |before| <= k < i && after[k].Flush?
    {
      var k :| |mid| <= k < i && after[k].Flush?;
    }
  }

  lemma SentThen(before: seq<Ev>, mid: seq<Ev>, after: seq<Ev>)
    requires NoneSent(mid, after)
    ensures FlushedFirst(before, mid) ==> FlushedFirst(before, after)
    ensures NoneSent(before, mid) ==> NoneSent(before, after)
  {
    if FlushedFirst(before, mid) {
      FlushedThen(before, mid, after);
    }
    if NoneSent(before, mid) {
      NoneSentOn(before, mid, after);
    }
  }

  lemma FlushedThen(before: seq<Ev>, mid: seq<Ev>, after: seq<Ev>)
    requires FlushedFirst(before, mid) && NoneSent(mid, after)
    ensures FlushedFirst(before, after)
  {
    assert forall i :: |mid| <= i < |after| ==> !IsRecord(after[i]);
    assert forall i :: 0 <= i < |mid| ==> after[i] == mid[i];
    forall i | |before| <= i < |mid| && IsRecord(mid[i])
      ensures exists k :: |before| <= k < i && after[k].Flush?
    {
      var k :| |before| <= k < i && mid[k].Flush?;
      assert after[k] == mid[k];
    }
  }

  lemma SendFlushed(before: seq<Ev>, after: seq<Ev>, jhead: nat, recs: seq<seq<Op>>)
    requires Part(before, after, SendEvents(jhead, recs, true)) || after == before + SendEvents(jhead, recs, true)
    ensures FlushedFirst(before, after)
  {
    var all := SendEvents(jhead, recs, true);
    assert all[0] == Flush;
    hide SendEvents;
    PartOf(before, all, all);
    forall i | |before| <= i < |after| && IsRecord(after[i])
      ensures exists k :: |before| <= k < i && after[k].Flush?
    {
      assert after[|before|..][0] == after[|before|] == all[0];
      assert i != |before|;
    }
  }

  lemma NoneSentOn(before: seq<Ev>, mid: seq<Ev>, after: seq<Ev>)
    requires NoneSent(before, mid) && NoneSent(mid, after)
    ensures NoneSent(before, after)
  {
  }

  lemma PartNoneSent(before: seq<Ev>, after: seq<Ev>, all: seq<Ev>)
    requires Part(before, after, all)
    requires forall i :: 0 <= i < |all| && all[i].Write? && all[i].a.JrnlAt? ==> all[i].pg == Zero
    ensures NoneSent(before, after)
  {
    forall i | |before| <= i < |after| ensures after[i] == all[i - |before|] {
      assert after[|before|..][i - |before|] == after[i];
    }
  }

  lemma {:induction false} RmapNoRecords(core: Core, full: bool, n: nat, i: nat)
    requires n <= |core.pmap| && i < |RmapWrites(core, full, n)| && RmapWrites(core, full, n)[i].Write?
    ensures !RmapWrites(core, full, n)[i].a.JrnlAt?
  {
    if n > 0 && i < |RmapWrites(core, full, n - 1)| {
      RmapNoRecords(core, full, n - 1, i);
    }
  }

  lemma {:induction false} PmapNoRecords(c: nat, pmap: seq<PmapEnt>, n: nat, i: nat)
    requires i < |PmapWrites(c, pmap, n)| && PmapWrites(c, pmap, n)[i].Write?
    ensures !PmapWrites(c, pmap, n)[i].a.JrnlAt?
  {
    if n > 0 && i < |PmapWrites(c, pmap, n - 1)| {
      PmapNoRecords(c, pmap, n - 1, i);
    }
  }

  lemma {:induction false} TblNoRecords(c: nat, snaps: seq<Snap>, n: nat, i: nat)
    requires i < |TblWrites(c, snaps, n)| && TblWrites(c, snaps, n)[i].Write?
    ensures !TblWrites(c, snaps, n)[i].a.JrnlAt?
  {
    if n > 0 && i < |TblWrites(c, snaps, n - 1)| {
      TblNoRecords(c, snaps, n - 1, i);
    }
  }

  /** none of these writes a journal page */
  ghost predicate NoJrnl(evs: seq<Ev>) {
    forall i :: 0 <= i < |evs| && evs[i].Write? ==> !evs[i].a.JrnlAt?
  }

  lemma NoJrnlJoin(a: seq<Ev>, b: seq<Ev>)
    requires NoJrnl(a) && NoJrnl(b)
    ensures NoJrnl(a + b)
  {
  }

  lemma TableNoJrnl(c: nat, pmap: seq<PmapEnt>, snaps: seq<Snap>)
    ensures NoJrnl(TableEvents(c, pmap, snaps))
  {
    var y, z := PmapWrites(c, pmap, PmapPages(|pmap|)), TblWrites(c, snaps, TBL_PAGES);
    hide PmapWrites, TblWrites, PmapPages;
    forall i: nat | i < |y| && y[i].Write? ensures !y[i].a.JrnlAt? {
      PmapNoRecords(c, pmap, PmapPages(|pmap|), i);
    }
    forall i: nat | i < |z| && z[i].Write? ensures !z[i].a.JrnlAt? {
      TblNoRecords(c, snaps, TBL_PAGES, i);
    }
    assert NoJrnl(y) && NoJrnl(z) && NoJrnl([Flush]);
    hide NoJrnl;
    NoJrnlJoin(y, z);
    NoJrnlJoin(y + z, [Flush]);
  }

  lemma BodyNoJrnl(core: Core, full: bool)
    ensures NoJrnl(BodyEvents(core, full))
  {
    var x, t := RmapWrites(core, full, |core.pmap|), TableEvents(core.ckpt + 1, NextPmap(core, full), core.st.snaps);
    hide RmapWrites, TableEvents, NextPmap;
    forall i: nat | i < |x| && x[i].Write? ensures !x[i].a.JrnlAt? {
      RmapNoRecords(core, full, |core.pmap|, i);
    }
    assert NoJrnl(x) && NoJrnl([Flush]);
    hide NoJrnl;
    TableNoJrnl(core.ckpt + 1, NextPmap(core, full), core.st.snaps);
    NoJrnlJoin(x, [Flush]);
    NoJrnlJoin(x + [Flush], t);
  }

  lemma CheckpointNoJrnl(core: Core, full: bool, i: nat)
    requires i < |CheckpointEvents(core, full)| && CheckpointEvents(core, full)[i].Write?
    ensures !CheckpointEvents(core, full)[i].a.JrnlAt?
  {
    assert NoJrnl(HdrEvents(core));
    hide BodyEvents, HdrEvents;
    BodyNoJrnl(core, full);
    NoJrnlJoin(BodyEvents(core, full), HdrEvents(core));
  }

  lemma CheckpointNoneSent(core: Core, full: bool, before: seq<Ev>, after: seq<Ev>)
    requires Part(before, after, CheckpointEvents(core, full)) || after == before + CheckpointEvents(core, full)
    ensures NoneSent(before, after)
  {
    var evs := CheckpointEvents(core, full);
    PartOf(before, evs, evs);
    forall i | 0 <= i < |evs| && evs[i].Write? ensures !evs[i].a.JrnlAt? {
      hide CheckpointEvents;
      CheckpointNoJrnl(core, full, i);
    }
    hide CheckpointEvents;
    PartNoneSent(before, after, evs);
  }

  lemma ScrubNoneSent(jhead: nat, before: seq<Ev>, after: seq<Ev>)
    requires Part(before, after, RingEvents(jhead, NoPages())) || after == before + RingEvents(jhead, NoPages())
    ensures NoneSent(before, after)
  {
    var evs := RingEvents(jhead, NoPages());
    PartOf(before, evs, evs);
    forall i | 0 <= i < |evs| && evs[i].Write? ensures evs[i].pg == Zero {
      RingEventsAre(jhead, NoPages(), i);
      hide RingEvents;
    }
    hide RingEvents;
    PartNoneSent(before, after, evs);
  }

  /** one more act, completed or not */
  lemma WentOn(core: Core, mid: Core, before: seq<Ev>, sofar: seq<Ev>, act: Act, after: seq<Ev>, ok: bool)
    requires Went(core, mid, before, sofar) && Allowed(mid, act)
    requires if ok then after == sofar + Events(mid, act) else Part(sofar, after, Events(mid, act))
    ensures ok ==> Went(core, After(mid, act), before, after)
    ensures !ok ==> Stopped(core, before, after)
  {
    hide Allowed, Events, After, Ran;
    if ok {
      var acts, evs :| Ran(core, acts, mid, evs) && sofar == before + evs;
      RanMore(core, acts, mid, evs, act);
      assert after == before + (evs + Events(mid, act));
    } else {
      assert Cut(mid, act, sofar, after);
    }
  }

  lemma AfterCheckpointIs(core: Core, full: bool)
    ensures var after := AfterCheckpoint(core, full);
      after.jhead == after.jtail == core.jhead && after.scrub == core.scrub && after.st == core.st
  {
  }

  lemma CheckpointWent(core: Core, mid: Core, before: seq<Ev>, sofar: seq<Ev>, full: bool, after: seq<Ev>, ok: bool)
    requires Went(core, mid, before, sofar)
    requires ok ==> after == sofar + CheckpointEvents(mid, full)
    requires !ok ==> Part(sofar, after, CheckpointEvents(mid, full))
    ensures ok ==> Went(core, AfterCheckpoint(mid, full), before, after)
    ensures !ok ==> Stopped(core, before, after)
  {
    hide Went, Stopped, AfterCheckpoint, CheckpointEvents, Part;
    WentOn(core, mid, before, sofar, Act.Checkpoint(full), after, ok);
  }

  lemma ScrubWent(core: Core, mid: Core, before: seq<Ev>, sofar: seq<Ev>, after: seq<Ev>, ok: bool)
    requires Went(core, mid, before, sofar) && mid.scrub && mid.jhead == mid.jtail
    requires ok ==> after == sofar + RingEvents(mid.jhead, NoPages())
    requires !ok ==> Part(sofar, after, RingEvents(mid.jhead, NoPages()))
    ensures ok ==> Went(core, mid.(scrub := false), before, after)
    ensures !ok ==> Stopped(core, before, after)
  {
    hide Went, Stopped, RingEvents, Part;
    WentOn(core, mid, before, sofar, Scrub, after, ok);
  }

  lemma RingFailed(jhead: nat, pages: seq<Page>, lo: nat, hi: nat, sofar: seq<Ev>)
    requires lo <= hi <= |pages|
    ensures Part(sofar, sofar + RingWrites(jhead, pages, lo, hi), RingPut(jhead, pages, lo, hi))
  {
    hide RingWrites, RingSet;
    PartOf(sofar, RingWrites(jhead, pages, lo, hi), RingPut(jhead, pages, lo, hi));
  }

  lemma NoPmap(c: nat, pmap: seq<PmapEnt>)
    ensures PmapWrites(c, pmap, 0) == []
  {
  }

  lemma NoEntries(snaps: seq<Snap>)
    ensures forall i :: TblPage(snaps[..0], i) == map[]
  {
  }

  lemma HeaderPut(core: Core, c: nat)
    requires c == core.ckpt + 1
    ensures PutEvents(HdrAt(c % 2), [HdrEvents(core)[0].pg], true) == HdrEvents(core)
    ensures PutWrites(HdrAt(c % 2), [HdrEvents(core)[0].pg]) == HdrEvents(core)[..1]
  {
    assert Nth(HdrAt(c % 2), 0) == HdrAt(c % 2);
    assert PutSet(HdrAt(c % 2), 1) == {HdrAt(c % 2)};
  }
}
