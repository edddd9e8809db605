/** Journal commits and the scrub before the first one, event by event: the ring never loses a
    record the checkpoint does not cover, and never offers one from an older lap
    (km/raid_km-snapmeta.c:603-770). */
module SnapCommit {
  import opened SnapState
  import opened SnapDerive
  import opened SnapRegion
  import opened SnapLoad
  import opened SnapStored
  import opened SnapReplay
  import opened SnapCheckpoint

  // ---- writing the ring ---------------------------------------------------------------------

  function RingAt(jhead: nat, i: nat): Addr {
    JrnlAt((jhead + i) % JPAGES)
  }

  function RingWrites(jhead: nat, pages: seq<Page>, lo: nat, hi: nat): seq<Ev>
    requires lo <= hi <= |pages|
    decreases hi
  {
    if hi == lo then []
    else RingWrites(jhead, pages, lo, hi - 1) + [Write(RingAt(jhead, hi - 1), pages[hi - 1])]
  }

  function RingSet(jhead: nat, lo: nat, hi: nat): set<Addr> {
    set i: nat | lo <= i < hi :: RingAt(jhead, i)
  }

  /** one forced write of consecutive slots */
  function RingPut(jhead: nat, pages: seq<Page>, lo: nat, hi: nat): seq<Ev>
    requires lo <= hi <= |pages|
  {
    RingWrites(jhead, pages, lo, hi) + [Fua(RingSet(jhead, lo, hi))]
  }

  /** pages into the slots from jhead on; in two puts where the ring wraps */
  function RingEvents(jhead: nat, pages: seq<Page>): seq<Ev> {
    var first := Least(|pages|, JPAGES - jhead % JPAGES);
    RingPut(jhead, pages, 0, first) + if first < |pages| then RingPut(jhead, pages, first, |pages|) else []
  }

  function RecordPages(jhead: nat, recs: seq<seq<Op>>): seq<Page> {
    seq(|recs|, i requires 0 <= i < |recs| => Good(jhead + i, Jrnl(recs[i])))
  }

  function NoPages(): seq<Page> {
    seq(JBUF, _ => Zero)
  }

  /** rk_sn_scrub_ring */
  function ScrubEvents(core: Core): seq<Ev> {
    RingEvents(core.jhead, NoPages())
  }

  /** what a commit sends: data first where a record depends on it, then the records */
  function CommitEvents(core: Core, recs: seq<seq<Op>>, data: bool): seq<Ev> {
    (if data then [Flush] else []) + RingEvents(core.jhead, RecordPages(core.jhead, recs))
  }

  // ---- every write of a ring event list --------------------------------------------------------

  ghost predicate RingWrite(jhead: nat, pages: seq<Page>, ev: Ev) {
    ev.Write? ==> exists i: nat :: i < |pages| && ev == Write(RingAt(jhead, i), pages[i])
  }

  lemma {:induction false} RingWritesAre(jhead: nat, pages: seq<Page>, lo: nat, hi: nat, k: nat)
    requires lo <= hi <= |pages| && k < |RingWrites(jhead, pages, lo, hi)|
    ensures RingWrite(jhead, pages, RingWrites(jhead, pages, lo, hi)[k])
    decreases hi
  {
    if hi > lo && k < |RingWrites(jhead, pages, lo, hi - 1)| {
      RingWritesAre(jhead, pages, lo, hi - 1, k);
    }
  }

  lemma RingPutAre(jhead: nat, pages: seq<Page>, lo: nat, hi: nat, k: nat)
    requires lo <= hi <= |pages| && k < |RingPut(jhead, pages, lo, hi)|
    ensures RingWrite(jhead, pages, RingPut(jhead, pages, lo, hi)[k])
  {
    if k < |RingWrites(jhead, pages, lo, hi)| {
      RingWritesAre(jhead, pages, lo, hi, k);
    }
  }

  lemma RingEventsAre(jhead: nat, pages: seq<Page>, k: nat)
    requires k < |RingEvents(jhead, pages)|
    ensures RingWrite(jhead, pages, RingEvents(jhead, pages)[k])
  {
    var first := Least(|pages|, JPAGES - jhead % JPAGES);
    var x := RingPut(jhead, pages, 0, first);
    hide RingPut, RingWrite;
    if k < |x| {
      RingPutAre(jhead, pages, 0, first, k);
    } else {
      RingPutAre(jhead, pages, first, |pages|, k - |x|);
    }
  }

  // ---- what the ring holds after ------------------------------------------------------------------

  lemma RingDistinct(jhead: nat, i: nat, k: nat)
    requires i < k < i + JPAGES
    ensures RingAt(jhead, i) != RingAt(jhead, k)
  {
  }

  lemma {:induction false} RingCurrent(d: Disk, jhead: nat, pages: seq<Page>, lo: nat, hi: nat, i: nat)
    requires lo <= i < hi <= |pages| <= JBUF
    ensures Rd(DoAll(d, RingWrites(jhead, pages, lo, hi)).cur, RingAt(jhead, i)) == pages[i]
    decreases hi
  {
    var evs := RingWrites(jhead, pages, lo, hi);
    assert evs[..|evs| - 1] == RingWrites(jhead, pages, lo, hi - 1);
    if i < hi - 1 {
      RingCurrent(d, jhead, pages, lo, hi - 1, i);
      RingDistinct(jhead, i, hi - 1);
    }
  }

  lemma RingPutHeld(d: Disk, jhead: nat, pages: seq<Page>, lo: nat, hi: nat, i: nat)
    requires lo <= i < hi <= |pages| <= JBUF
    ensures Holds(DoAll(d, RingPut(jhead, pages, lo, hi)), RingAt(jhead, i), pages[i])
  {
    var evs := RingPut(jhead, pages, lo, hi);
    assert evs[..|evs| - 1] == RingWrites(jhead, pages, lo, hi);
    RingCurrent(d, jhead, pages, lo, hi, i);
    assert RingAt(jhead, i) in RingSet(jhead, lo, hi);
    hide RingWrites;
  }

  lemma {:induction false} HoldsKept(d: Disk, evs: seq<Ev>, a: Addr, pg: Page)
    requires Holds(d, a, pg) && forall k :: 0 <= k < |evs| && evs[k].Write? ==> evs[k].a != a
    ensures Holds(DoAll(d, evs), a, pg)
  {
    if evs != [] {
      HoldsKept(d, evs[..|evs| - 1], a, pg);
    }
  }

  lemma {:induction false} RingWritesRange(jhead: nat, pages: seq<Page>, lo: nat, hi: nat, k: nat)
    requires lo <= hi <= |pages| && k < |RingWrites(jhead, pages, lo, hi)|
    ensures |RingWrites(jhead, pages, lo, hi)| == hi - lo
    ensures RingWrites(jhead, pages, lo, hi)[k] == Write(RingAt(jhead, lo + k), pages[lo + k])
    decreases hi
  {
    if hi > lo {
      if k < |RingWrites(jhead, pages, lo, hi - 1)| {
        RingWritesRange(jhead, pages, lo, hi - 1, k);
      } else if k > 0 {
        RingWritesRange(jhead, pages, lo, hi - 1, 0);
      } else {
        assert RingWrites(jhead, pages, lo, hi - 1) == [];
      }
    }
  }

  /** Once the puts are done every page is durable in its slot. */
  lemma RingHeld(d: Disk, jhead: nat, pages: seq<Page>, i: nat)
    requires i < |pages| <= JBUF
    ensures Holds(DoAll(d, RingEvents(jhead, pages)), RingAt(jhead, i), pages[i])
  {
    var first := Least(|pages|, JPAGES - jhead % JPAGES);
    var x := RingPut(jhead, pages, 0, first);
    if first < |pages| {
      var y := RingPut(jhead, pages, first, |pages|);
      DoAllSplit(d, x, y);
      if i < first {
        RingPutHeld(d, jhead, pages, 0, first, i);
        forall k | 0 <= k < |y| && y[k].Write? ensures y[k].a != RingAt(jhead, i) {
          RingWritesRange(jhead, pages, first, |pages|, k);
          RingDistinct(jhead, i, first + k);
        }
        hide RingPut, Holds;
        HoldsKept(DoAll(d, x), y, RingAt(jhead, i), pages[i]);
      } else {
        RingPutHeld(DoAll(d, x), jhead, pages, first, |pages|, i);
      }
    } else {
      assert x + [] == x;
      RingPutHeld(d, jhead, pages, 0, first, i);
    }
  }

  // ---- writing it is safe --------------------------------------------------------------------------

  lemma RecordReplaced(per: Per, x: Image, y: Image, idx: nat)
    requires Stored(per, x) && SameBut(x, y, JrnlAt(idx)) && RecordOk(per, idx, Rd(y, JrnlAt(idx)))
    requires forall q :: per.jtail <= q < per.acked ==> q % JPAGES != idx
    ensures Stored(per, y)
  {
    hide HdrCopyOk, RmapCopyOk, PmapPages, PmapPage, TblPage, RingFits;
    assert forall k :: k != idx ==> Rd(y, JrnlAt(k)) == Rd(x, JrnlAt(k));
    hide Rd, RecordOk;
    assert HdrImg(per, y) && TblImg(per, y) && PmapImg(per, y);
    assert RmapImg(per, y);
    assert AckedImg(per, y) && RingImg(per, y);
  }

  /** the slot holds no record that is needed, and what goes there is zeroes or a record the
      history has there */
  ghost predicate RingOk(per: Per, ev: Ev)
    requires RingFits(per)
  {
    ev.Write? ==>
      && ev.a.JrnlAt? && RecordOk(per, ev.a.idx, ev.pg)
      && forall q :: per.jtail <= q < per.acked ==> q % JPAGES != ev.a.idx
  }

  lemma RingStep(per: Per, d: Disk, ev: Ev)
    requires RingFits(per) && Safe(per, d) && RingOk(per, ev)
    ensures Safe(per, Do(d, ev))
  {
    hide Stored, RecordOk;
    forall img: Image | IsImage(Do(d, ev), img) ensures Stored(per, img) {
      if ev.Write? {
        var before := ImageBeforeWrite(d, ev.a, ev.pg, img);
        assert Stored(per, before);
        hide Do;
        RingStepImage(per, d, ev, before, img);
      } else {
        ImageBeforeBarrier(d, ev, img);
      }
    }
  }

  lemma RingStepImage(per: Per, d: Disk, ev: Ev, before: Image, img: Image)
    requires RingFits(per) && Safe(per, d) && ev.Write? && RingOk(per, ev)
    requires IsImage(d, before) && SameBut(before, img, ev.a)
    requires Rd(img, ev.a) == ev.pg || Rd(img, ev.a) == Bad || Possible(d, ev.a, Rd(img, ev.a))
    ensures Stored(per, img)
  {
    assert Stored(per, before);
    if Rd(img, ev.a) == ev.pg || Rd(img, ev.a) == Bad {
      hide Safe, IsImage, Possible, Stored;
      assert RecordOk(per, ev.a.idx, Bad);
      RecordReplaced(per, before, img, ev.a.idx);
    } else {
      assert IsImage(d, img);
    }
  }

  lemma {:induction false} RingSafe(per: Per, d: Disk, evs: seq<Ev>)
    requires RingFits(per) && Safe(per, d)
    requires forall i :: 0 <= i < |evs| ==> RingOk(per, evs[i])
    ensures Safe(per, DoAll(d, evs))
  {
    hide Safe, RingOk, Do, RingFits;
    if evs != [] {
      var n := |evs| - 1;
      RingSafe(per, d, evs[..n]);
      RingStep(per, DoAll(d, evs[..n]), evs[n]);
    }
  }

  // ---- no record past the head ------------------------------------------------------------------------

  ghost predicate NoNewer(q: nat, img: Image) {
    forall idx :: 0 <= idx < JPAGES && Rd(img, JrnlAt(idx)).Good? ==> Rd(img, JrnlAt(idx)).gen < q
  }

  /** whatever a power cut leaves, this member has no good record numbered q or above */
  ghost predicate Clean(q: nat, d: Disk) {
    forall img: Image :: IsImage(d, img) ==> NoNewer(q, img)
  }

  predicate OlderWrite(q: nat, ev: Ev) {
    ev.Write? && ev.a.JrnlAt? && ev.pg.Good? ==> ev.pg.gen < q
  }

  lemma CleanStep(q: nat, d: Disk, ev: Ev)
    requires Clean(q, d) && OlderWrite(q, ev)
    ensures Clean(q, Do(d, ev))
  {
    forall img: Image | IsImage(Do(d, ev), img) ensures NoNewer(q, img) {
      if ev.Write? {
        var before := ImageBeforeWrite(d, ev.a, ev.pg, img);
        assert NoNewer(q, before);
        if ev.a.JrnlAt? && Rd(img, ev.a) != ev.pg && Rd(img, ev.a) != Bad {
          hide Do;
          var other := before[ev.a := Rd(img, ev.a)];
          assert forall b :: b != ev.a ==> Rd(other, b) == Rd(before, b);
          assert IsImage(d, other);
          assert NoNewer(q, other);
        }
      } else {
        ImageBeforeBarrier(d, ev, img);
      }
    }
  }

  lemma {:induction false} CleanAll(q: nat, d: Disk, evs: seq<Ev>)
    requires Clean(q, d) && forall i :: 0 <= i < |evs| ==> OlderWrite(q, evs[i])
    ensures Clean(q, DoAll(d, evs))
  {
    hide Clean, OlderWrite, Do;
    if evs != [] {
      var n := |evs| - 1;
      CleanAll(q, d, evs[..n]);
      CleanStep(q, DoAll(d, evs[..n]), evs[n]);
    }
  }

  // ---- scrubbing ---------------------------------------------------------------------------------------

  /** The scrub loses nothing at any point ... */
  lemma ScrubSafe(core: Core, per: Per, d: Disk, n: nat)
    requires InCore(core, per) && Safe(per, d) && core.jhead == core.jtail && n <= |ScrubEvents(core)|
    ensures Safe(per, DoAll(d, ScrubEvents(core)[..n]))
  {
    var evs := ScrubEvents(core);
    forall i | 0 <= i < n ensures RingOk(per, evs[i]) {
      RingEventsAre(core.jhead, NoPages(), i);
    }
    hide InCore, Safe, ScrubEvents, RingOk;
    RingSafe(per, d, evs[..n]);
  }

  /** ... and leaves no record a later lap could run into. */
  lemma ScrubCleans(core: Core, per: Per, d: Disk)
    requires InCore(core, per) && Safe(per, d) && core.jhead == core.jtail
    ensures Clean(core.jhead, DoAll(d, ScrubEvents(core)))
  {
    var e := DoAll(d, ScrubEvents(core));
    assert ScrubEvents(core)[..|ScrubEvents(core)|] == ScrubEvents(core);
    ScrubSafe(core, per, d, |ScrubEvents(core)|);
    assert RingFits(per) && per.jtail == core.jhead && per.acked == core.jhead;
    hide InCore;
    forall img: Image | IsImage(e, img) ensures NoNewer(core.jhead, img) {
      assert RingImg(per, img);
      hide Stored, Safe, RingFits;
      forall idx | 0 <= idx < JPAGES && Rd(img, JrnlAt(idx)).Good? ensures Rd(img, JrnlAt(idx)).gen < core.jhead {
        assert RecordOk(per, idx, Rd(img, JrnlAt(idx)));
        ScrubbedSlot(core.jhead, d, img, Rd(img, JrnlAt(idx)).gen);
      }
    }
  }

  lemma ScrubbedSlot(jhead: nat, d: Disk, img: Image, gen: nat)
    requires IsImage(DoAll(d, RingEvents(jhead, NoPages())), img)
    requires Rd(img, JrnlAt(gen % JPAGES)).Good? && gen < jhead + JBUF
    ensures gen < jhead
  {
    if gen >= jhead {
      RingHeld(d, jhead, NoPages(), gen - jhead);
      hide RingEvents;
      HoldsImage(DoAll(d, RingEvents(jhead, NoPages())), img, RingAt(jhead, gen - jhead), Zero);
    }
  }

  // ---- applying a batch ---------------------------------------------------------------------------------

  ghost function LiveOps(v: Live, ops: seq<Op>): Live
    requires OpsOk(v.st, ops)
    decreases |ops|
  {
    if ops == [] then v
    else LiveOps(Live(Apply(v.st, ops[0]), v.rdirty + DirtyPages(v.st, ops[0])), ops[1..])
  }

  lemma {:induction false} LiveOpsState(v: Live, ops: seq<Op>)
    requires OpsOk(v.st, ops)
    ensures LiveOps(v, ops).st == ApplyAll(v.st, ops)
    decreases |ops|
  {
    if ops != [] {
      LiveOpsState(Live(Apply(v.st, ops[0]), v.rdirty + DirtyPages(v.st, ops[0])), ops[1..]);
    }
  }

  ghost function LiveRecs(v: Live, recs: seq<seq<Op>>): Live
    requires RecsOk(v.st, recs)
    decreases |recs|
  {
    if recs == [] then v
    else
      LiveOpsState(v, recs[0]);
      LiveRecs(LiveOps(v, recs[0]), recs[1..])
  }

  /** what the running state is, beside the settled one on which the history is defined */
  ghost predicate Running(base: map<nat, Ent>, v: Live) {
    Coherent(v.st) && UsedCovers(v.st) && v.st.nextId > 0 && DirtyCovers(base, v)
  }

  lemma RunningStep(base: map<nat, Ent>, v: Live, op: Op)
    requires Running(base, v) && OpOk(v.st, op) && Applicable(v.st, op)
    ensures OpOk(Settled(v.st), op) && Applicable(Settled(v.st), op)
    ensures var w := Live(Apply(v.st, op), v.rdirty + DirtyPages(v.st, op));
      Running(base, w) && Settled(w.st) == Apply(Settled(v.st), op) && w.st.R == v.st.R && w.st.O == v.st.O
  {
    SettledApply(v.st, op);
    DirtyStep(base, v, op);
    SameSize(v.st, op);
    NextIdKept(v.st, op);
    hide Coherent, UsedCovers, Apply, DirtyPages, DirtyCovers, OpOk;
  }

  lemma NextIdKept(st: St, op: Op)
    requires Applicable(st, op)
    ensures Apply(st, op).nextId >= st.nextId
  {
    if op.Destroy? {
      DropRowsNextId(st, IndexOf(st.snaps, op.slot), st.O);
    }
  }

  lemma {:induction false} DropRowsNextId(st: St, i: nat, n: nat)
    requires i < |st.snaps|
    ensures DropRows(st, i, n).nextId == st.nextId
  {
    if n > 0 {
      DropRowsNextId(st, i, n - 1);
    }
  }

  lemma {:induction false} RunningOps(base: map<nat, Ent>, v: Live, ops: seq<Op>)
    requires Running(base, v) && OpsOk(v.st, ops)
    ensures OpsOk(Settled(v.st), ops)
    ensures var w := LiveOps(v, ops);
      Running(base, w) && Settled(w.st) == ApplyAll(Settled(v.st), ops) && w.st.R == v.st.R && w.st.O == v.st.O
    decreases |ops|
  {
    if ops != [] {
      RunningStep(base, v, ops[0]);
      hide Running, Apply, Settled, DirtyPages, OpOk, Applicable;
      RunningOps(base, Live(Apply(v.st, ops[0]), v.rdirty + DirtyPages(v.st, ops[0])), ops[1..]);
    }
  }

  lemma {:induction false} RunningRecs(base: map<nat, Ent>, v: Live, recs: seq<seq<Op>>)
    requires Running(base, v) && RecsOk(v.st, recs)
    ensures RecsOk(Settled(v.st), recs)
    ensures var w := LiveRecs(v, recs);
      Running(base, w) && Settled(w.st) == ApplyRecs(Settled(v.st), recs) && w.st.R == v.st.R && w.st.O == v.st.O
    decreases |recs|
  {
    if recs != [] {
      LiveOpsState(v, recs[0]);
      RunningOps(base, v, recs[0]);
      hide Running, LiveOps, ApplyAll, OpsOk, Settled;
      RunningRecs(base, LiveOps(v, recs[0]), recs[1..]);
    }
  }

  // ---- committing -------------------------------------------------------------------------------------------

  /** the in-core state once the records are in the ring and applied */
  ghost function AfterCommit(core: Core, recs: seq<seq<Op>>): Core
    requires RecsOk(core.st, recs)
  {
    var v := LiveRecs(Live(core.st, core.rdirty), recs);
    core.(st := v.st, rdirty := v.rdirty, jhead := core.jhead + |recs|)
  }

  /** the history with the records sent, and with them acknowledged */
  function Sent(per: Per, recs: seq<seq<Op>>): Per {
    per.(hist := per.hist + recs)
  }

  function Acked(per: Per): Per {
    per.(acked := |per.hist|)
  }

  /** rk_sn_commit_fn writes records only once it settled, with at least half a ring free */
  ghost predicate CanCommit(core: Core, recs: seq<seq<Op>>) {
    !core.scrub && 0 < |recs| <= JBUF && core.jhead < core.jtail + JPAGES / 2 && RecsOk(core.st, recs)
  }

  lemma SentRecs(per: Per, st: St, recs: seq<seq<Op>>)
    requires per.jtail <= |per.hist| && RecsOk(per.base, per.hist[per.jtail..])
    requires st == ApplyRecs(per.base, per.hist[per.jtail..]) && RecsOk(st, recs)
    ensures RecsOk(per.base, Sent(per, recs).hist[per.jtail..])
    ensures ApplyRecs(per.base, Sent(per, recs).hist[per.jtail..]) == ApplyRecs(st, recs)
  {
    assert Sent(per, recs).hist[per.jtail..] == per.hist[per.jtail..] + recs;
    hide RecsOk, ApplyRecs;
    RecsSplit(per.base, per.hist[per.jtail..], recs);
  }

  lemma SentOk(per: Per, recs: seq<seq<Op>>)
    requires PerOk(per) && per.acked == |per.hist| && 0 < |recs| <= JBUF && |per.hist| < per.jtail + JPAGES / 2
    requires RecsOk(per.base, Sent(per, recs).hist[per.jtail..])
    ensures PerOk(Sent(per, recs)) && PerOk(Acked(Sent(per, recs)))
  {
    assert PmapFits(Sent(per, recs)) && PmapFits(Acked(Sent(per, recs))) by {
      assert PmapFits(per);
    }
    hide AtRest, PmapFits, RecsOk;
  }

  lemma CommitInCore(core: Core, per: Per, recs: seq<seq<Op>>)
    requires InCore(core, per) && per.acked == |per.hist| && CanCommit(core, recs)
    ensures PerOk(Sent(per, recs))
    ensures InCore(AfterCommit(core, recs), Acked(Sent(per, recs)))
  {
    var v := Live(core.st, core.rdirty);
    assert Running(per.base.rmap, v) by { hide PerOk; }
    assert per.jtail <= |per.hist| && RecsOk(per.base, per.hist[per.jtail..]) by { hide AtRest; }
    hide Coherent, UsedCovers, DirtyCovers, RecsOk, ApplyRecs, PerOk, LiveRecs, Settled;
    RunningRecs(per.base.rmap, v, recs);
    SentRecs(per, Settled(core.st), recs);
    SentOk(per, recs);
  }

  lemma SentStored(per: Per, recs: seq<seq<Op>>, img: Image)
    requires Stored(per, img) && NoNewer(|per.hist|, img) && per.acked == |per.hist| && 0 < |recs| <= JBUF
    requires RingFits(Sent(per, recs))
    ensures Stored(Sent(per, recs), img)
  {
    var sent := Sent(per, recs);
    assert RingImg(per, img);
    forall idx | 0 <= idx < JPAGES ensures RecordOk(sent, idx, Rd(img, JrnlAt(idx))) {
      assert RecordOk(per, idx, Rd(img, JrnlAt(idx)));
    }
    assert AckedImg(sent, img);
    hide RingImg, NoNewer;
    forall i | 0 <= i < 2 ensures HdrCopyOk(sent, i, Rd(img, HdrAt(i))) {
      assert HdrCopyOk(per, i, Rd(img, HdrAt(i)));
    }
    forall p | 0 <= p < |sent.pmap| && sent.pmap[p].Touched?
      ensures RmapCopyOk(sent, p, Rd(img, RmapAt(sent.pmap[p].slot, p)))
    {
      assert RmapCopyOk(per, p, Rd(img, RmapAt(per.pmap[p].slot, p)));
    }
  }

  lemma SentSafe(per: Per, recs: seq<seq<Op>>, d: Disk)
    requires Safe(per, d) && Clean(|per.hist|, d) && per.acked == |per.hist| && 0 < |recs| <= JBUF
    requires RingFits(Sent(per, recs))
    ensures Safe(Sent(per, recs), d)
  {
    forall img: Image | IsImage(d, img) ensures Stored(Sent(per, recs), img) {
      hide IsImage, Stored, NoNewer, RingFits;
      SentStored(per, recs, img);
    }
  }

  /** the slots of a batch hold no record the checkpoint does not cover */
  lemma RecordsRingOk(core: Core, per: Per, recs: seq<seq<Op>>, i: nat)
    requires core.jtail == per.jtail && core.jhead == |per.hist| == per.acked && RingFits(Sent(per, recs))
    requires 0 < |recs| <= JBUF && core.jhead < core.jtail + JPAGES / 2 && i < |recs|
    ensures RingOk(Sent(per, recs), Write(RingAt(core.jhead, i), RecordPages(core.jhead, recs)[i]))
  {
  }

  lemma CommitRingOk(core: Core, per: Per, recs: seq<seq<Op>>, data: bool, k: nat)
    requires core.jtail == per.jtail && core.jhead == |per.hist| == per.acked && RingFits(Sent(per, recs))
    requires 0 < |recs| <= JBUF && core.jhead < core.jtail + JPAGES / 2 && k < |CommitEvents(core, recs, data)|
    ensures RingOk(Sent(per, recs), CommitEvents(core, recs, data)[k])
    ensures OlderWrite(core.jhead + |recs|, CommitEvents(core, recs, data)[k])
  {
    var ev := CommitEvents(core, recs, data)[k];
    if ev.Write? {
      var pages := RecordPages(core.jhead, recs);
      RingEventsAre(core.jhead, pages, if data then k - 1 else k);
      hide RingEvents;
      var i: nat :| i < |pages| && ev == Write(RingAt(core.jhead, i), pages[i]);
      RecordsRingOk(core, per, recs, i);
    }
  }

  /** A power cut at any point of a commit leaves every record acknowledged before it, and of
      the new ones none but those of the batch. */
  lemma CommitSafe(core: Core, per: Per, recs: seq<seq<Op>>, data: bool, d: Disk, n: nat)
    requires InCore(core, per) && per.acked == |per.hist| && CanCommit(core, recs)
    requires Safe(per, d) && Clean(core.jhead, d) && n <= |CommitEvents(core, recs, data)|
    ensures RingFits(Sent(per, recs)) && Safe(Sent(per, recs), DoAll(d, CommitEvents(core, recs, data)[..n]))
    ensures Clean(core.jhead + |recs|, DoAll(d, CommitEvents(core, recs, data)[..n]))
  {
    var evs := CommitEvents(core, recs, data);
    SentSafe(per, recs, d);
    assert Clean(core.jhead + |recs|, d) by {
      forall img: Image | IsImage(d, img) ensures NoNewer(core.jhead + |recs|, img) {
        assert NoNewer(core.jhead, img);
      }
    }
    forall i | 0 <= i < n ensures RingOk(Sent(per, recs), evs[i]) && OlderWrite(core.jhead + |recs|, evs[i]) {
      hide CommitEvents, RingOk, OlderWrite;
      CommitRingOk(core, per, recs, data, i);
    }
    hide InCore, Safe, Clean, CommitEvents, RingOk, OlderWrite, RingFits;
    RingSafe(Sent(per, recs), d, evs[..n]);
    CleanAll(core.jhead + |recs|, d, evs[..n]);
  }

  lemma CommitHeld(core: Core, recs: seq<seq<Op>>, data: bool, d: Disk, i: nat)
    requires i < |recs| <= JBUF
    ensures Holds(DoAll(d, CommitEvents(core, recs, data)), RingAt(core.jhead, i), Good(core.jhead + i, Jrnl(recs[i])))
  {
    var x: seq<Ev> := if data then [Flush] else [];
    var pages := RecordPages(core.jhead, recs);
    DoAllSplit(d, x, RingEvents(core.jhead, pages));
    RingHeld(DoAll(d, x), core.jhead, pages, i);
    hide RingEvents, DoAll, Holds;
  }

  /** A commit that completes keeps its records everywhere. */
  lemma CommitDone(core: Core, per: Per, recs: seq<seq<Op>>, data: bool, d: Disk)
    requires InCore(core, per) && per.acked == |per.hist| && CanCommit(core, recs)
    requires Safe(per, d) && Clean(core.jhead, d)
    ensures var e := DoAll(d, CommitEvents(core, recs, data));
      Safe(Acked(Sent(per, recs)), e) && Clean(core.jhead + |recs|, e)
  {
    var evs := CommitEvents(core, recs, data);
    var e, sent, done := DoAll(d, evs), Sent(per, recs), Acked(Sent(per, recs));
    assert evs[..|evs|] == evs;
    CommitSafe(core, per, recs, data, d, |evs|);
    assert core.jhead == |per.hist|;
    hide InCore, CommitEvents;
    forall img: Image | IsImage(e, img) ensures Stored(done, img) {
      assert Stored(sent, img);
      forall i | 0 <= i < |recs| ensures Rd(img, RingAt(core.jhead, i)) == Good(core.jhead + i, Jrnl(recs[i])) {
        CommitHeld(core, recs, data, d, i);
        HoldsImage(e, img, RingAt(core.jhead, i), Good(core.jhead + i, Jrnl(recs[i])));
      }
      hide IsImage, Safe, Clean, DoAll;
      AckedStored(sent, recs, img, core.jhead);
    }
  }

  lemma AckedStored(sent: Per, recs: seq<seq<Op>>, img: Image, jhead: nat)
    requires Stored(sent, img) && sent.acked == jhead && |sent.hist| == jhead + |recs| && sent.hist[jhead..] == recs
    requires |recs| <= JBUF && jhead < sent.jtail + JPAGES / 2
    requires forall i :: 0 <= i < |recs| ==> Rd(img, RingAt(jhead, i)) == Good(jhead + i, Jrnl(recs[i]))
    ensures Stored(Acked(sent), img)
  {
    var done := Acked(sent);
    assert AckedImg(done, img) by {
      forall q | done.jtail <= q < done.acked ensures Rd(img, JrnlAt(q % JPAGES)) == Good(q, Jrnl(done.hist[q])) {
        if q >= jhead {
          assert RingAt(jhead, q - jhead) == JrnlAt(q % JPAGES);
          assert recs[q - jhead] == sent.hist[jhead..][q - jhead];
        }
      }
    }
    assert RingImg(done, img) by {
      forall idx | 0 <= idx < JPAGES ensures RecordOk(done, idx, Rd(img, JrnlAt(idx))) {
        assert RecordOk(sent, idx, Rd(img, JrnlAt(idx)));
      }
    }
    hide RingImg, AckedImg;
    forall i | 0 <= i < 2 ensures HdrCopyOk(done, i, Rd(img, HdrAt(i))) {
      assert HdrCopyOk(sent, i, Rd(img, HdrAt(i)));
    }
    forall p | 0 <= p < |done.pmap| && done.pmap[p].Touched?
      ensures RmapCopyOk(done, p, Rd(img, RmapAt(done.pmap[p].slot, p)))
    {
      assert RmapCopyOk(sent, p, Rd(img, RmapAt(sent.pmap[p].slot, p)));
    }
  }
}
