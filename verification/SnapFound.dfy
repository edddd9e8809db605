/** A record that a load replayed is not yet in a checkpoint: the worker settles only before it
    writes the next one (km/raid_km-snapmeta.c:632-646, 742).  Which members another power cut
    must leave for the next load to find it again, exactly. */
module SnapFound {
  import opened SnapState
  import opened SnapDerive
  import opened SnapRegion
  import opened SnapLoad
  import opened SnapStored
  import opened SnapReplay
  import opened SnapRecover
  import opened SnapCheckpoint
  import opened SnapCommit
  import opened SnapRun
  import opened SnapHolders
  import opened SnapSplit

  /** the record's page on a member */
  function PageOf(s: Sys, q: nat): Page
    requires q < |s.hist|
  {
    Good(q, Jrnl(s.hist[q]))
  }

  /** this member has record q for good */
  ghost predicate HasRecord(s: Sys, m: nat, q: nat)
    requires q < |s.hist|
  {
    m in s.disks && Holds(s.disks[m], JrnlAt(q % JPAGES), PageOf(s, q))
  }

  /** replayed by the last load, and not in a checkpoint yet */
  predicate Late(s: Sys, q: nat) {
    s.acked <= q < |s.hist|
  }

  /** each such record is on one of these members */
  ghost predicate Held(s: Sys, members: seq<nat>) {
    forall q: nat :: Late(s, q) ==> exists i :: 0 <= i < |members| && HasRecord(s, members[i], q)
  }

  /** ... on some member of the array */
  ghost predicate HeldBySome(s: Sys) {
    forall q: nat :: Late(s, q) ==> exists m :: HasRecord(s, m, q)
  }

  /** nothing has been written since the load that replayed them */
  ghost predicate QuietUntil(s: Sys) {
    s.acked < |s.hist| ==> forall m :: m in s.disks ==> Quiet(s.disks[m])
  }

  // ---- what a load replays is there to be read ------------------------------------------------------

  lemma {:induction false} ReplayedRead(imgs: seq<Image>, v: Live, from: nat, q: nat)
    requires ReplayFrom(imgs, v, from).Ok? && from <= q < ReplayFrom(imgs, v, from).value.jhead
    ensures Get(imgs, JrnlAt(q % JPAGES), Exactly(q)).Found?
    decreases q - from
  {
    hide ReplayOps;
    var r := Get(imgs, JrnlAt(from % JPAGES), Exactly(from));
    if r.Found? && q > from {
      var next := ReplayOps(v, r.body.ops).value;
      ReplayedRead(imgs, next, from + 1, q);
    }
  }

  lemma FinishRead(imgs: seq<Image>, h: Header, st: St, pmap: seq<PmapEnt>, q: nat)
    requires Finish(imgs, h, st, pmap).Ok?
    requires Finish(imgs, h, st, pmap).value.jtail <= q < Finish(imgs, h, st, pmap).value.jhead
    ensures Get(imgs, JrnlAt(q % JPAGES), Exactly(q)).Found?
  {
    hide ReplayFrom;
    ReplayedRead(imgs, Live(st, {}), h.jtail, q);
  }

  lemma MapsRead(imgs: seq<Image>, R: nat, O: nat, h: Header, q: nat)
    requires LoadMaps(imgs, R, O, h).Ok?
    requires LoadMaps(imgs, R, O, h).value.jtail <= q < LoadMaps(imgs, R, O, h).value.jhead
    ensures Get(imgs, JrnlAt(q % JPAGES), Exactly(q)).Found?
  {
    hide Finish, LoadTable, LoadPmap, LoadRmap, Derive, RmapPages, PmapPages, ChainOf;
    var st, pmap := MapsFinish(imgs, R, O, h);
    FinishRead(imgs, h, st, pmap, q);
  }

  lemma MapsFinish(imgs: seq<Image>, R: nat, O: nat, h: Header) returns (st: St, pmap: seq<PmapEnt>)
    requires LoadMaps(imgs, R, O, h).Ok?
    ensures LoadMaps(imgs, R, O, h) == Finish(imgs, h, st, pmap)
  {
    hide Finish, LoadTable, LoadPmap, LoadRmap, Derive, PmapPages, ChainOf;
    var N := RmapPages(R);
    if h.ckpt == 0 {
      pmap := seq(N, _ => Untouched);
      st := Derive(R, O, map[], [], h.nextId).value;
    } else {
      pmap := LoadPmap(imgs, h.ckpt, PmapPages(N)).value;
      var chain := ChainOf(LoadTable(imgs, h.ckpt, TBL_PAGES).value, SLOTS);
      st := Derive(R, O, LoadRmap(imgs, R, h.ckpt, pmap, N).value, chain, h.nextId).value;
    }
  }

  lemma HeaderPct(imgs: seq<Image>)
    requires LoadHeader(imgs).Ok?
    ensures LoadHeader(imgs).value.pct <= 90
  {
    hide Get;
  }

  lemma LoadRead(R: nat, imgs: seq<Image>, q: nat)
    requires Load(R, imgs).Ok? && Load(R, imgs).value.jtail <= q < Load(R, imgs).value.jhead
    ensures Get(imgs, JrnlAt(q % JPAGES), Exactly(q)).Found?
  {
    hide LoadMaps, LoadHeader, RmapPages, InitOrigin;
    var h := LoadHeader(imgs).value;
    HeaderPct(imgs);
    MapsRead(imgs, R, if h.R == 0 then InitOrigin(R, h.pct) else h.O, h, q);
  }

  /** and it is the record of the history */
  lemma ReadRecord(e: Per, imgs: seq<Image>, q: nat) returns (k: nat)
    requires PerOk(e) && AllStored(e, imgs) && e.jtail <= q <= |e.hist|
    requires Get(imgs, JrnlAt(q % JPAGES), Exactly(q)).Found?
    ensures q < |e.hist| && k < |imgs| && Rd(imgs[k], JrnlAt(q % JPAGES)) == Good(q, Jrnl(e.hist[q]))
  {
    var a := JrnlAt(q % JPAGES);
    assert RingFits(e);
    GetFinds(imgs, a, Exactly(q));
    var r := Get(imgs, a, Exactly(q));
    hide PerOk, Get, HdrImg, TblImg, PmapImg, RmapImg, AckedImg;
    k :| k < |imgs| && Offers(imgs[k], a, Exactly(q), r.gen, r.body);
    assert Stored(e, imgs[k]);
    assert RecordOk(e, q % JPAGES, Rd(imgs[k], a));
  }

  // ---- the next load finds it again ------------------------------------------------------------------

  /** before the worker settles it writes no record */
  lemma LateActs(s: Sys, act: Act)
    requires Inv(s) && Allowed(s.core, act) && s.acked < |s.hist|
    ensures act.Checkpoint? || act.Reserve?
  {
    assert RingFits(PerOf(s)) && s.core.jhead == |s.hist|;
    hide MemberOk, PerOf, RecsOk, ApplyRecs, Coherent, DirtyCovers;
  }

  lemma {:induction false} NotWritten(d: Disk, evs: seq<Ev>, a: Addr, pg: Page)
    requires Holds(d, a, pg) && forall i :: 0 <= i < |evs| && evs[i].Write? ==> evs[i].a != a
    ensures Holds(DoAll(d, evs), a, pg)
  {
    if evs != [] {
      NotWritten(d, evs[..|evs| - 1], a, pg);
    }
  }

  /** what is written then is no record */
  lemma LateHolds(s: Sys, act: Act, n: nat, m: nat, q: nat)
    requires Inv(s) && Allowed(s.core, act) && n <= |Events(s.core, act)| && Late(s, q) && HasRecord(s, m, q)
    ensures m in s.disks && Holds(DoAll(s.disks[m], Events(s.core, act)[..n]), JrnlAt(q % JPAGES), PageOf(s, q))
  {
    LateActs(s, act);
    var evs, a := Events(s.core, act)[..n], JrnlAt(q % JPAGES);
    InvPmap(s);
    forall i | 0 <= i < |evs| && evs[i].Write? ensures evs[i].a != a {
      hide Inv, CheckpointEvents;
      if act.Checkpoint? {
        CheckpointNoRecords(s.core, PerOf(s), act.full, i);
      }
    }
    hide Inv, Events;
    NotWritten(s.disks[m], evs, a, PageOf(s, q));
  }

  lemma InvPmap(s: Sys)
    requires Inv(s)
    ensures BasedOn(s) && s.core.pmap == PerOf(s).pmap && s.core.ckpt == PerOf(s).ckpt && PmapFits(PerOf(s))
  {
  }

  lemma BackReads(s: Sys, act: Act, n: nat, members: seq<nat>, imgs: seq<Image>, q: nat)
    requires Inv(s) && Back(s, act, n, members, imgs) && Held(s, members) && Late(s, q)
    ensures !NoRecord(imgs, q)
  {
    var i :| 0 <= i < |members| && HasRecord(s, members[i], q);
    hide Inv, Back, Held, IsImage, HasRecord, Events, Allowed;
    BackImage(s, act, n, members, imgs, i);
    LateHolds(s, act, n, members[i], q);
    HoldsImage(DoAll(s.disks[members[i]], Events(s.core, act)[..n]), imgs[i], JrnlAt(q % JPAGES), PageOf(s, q));
    assert Offers(imgs[i], JrnlAt(q % JPAGES), Exactly(q), q, Jrnl(s.hist[q]));
  }

  /** With each late record on a member that comes back, no load finds less than the last one. */
  lemma HeldFound(s: Sys, act: Act, n: nat, members: seq<nat>, imgs: seq<Image>)
    requires Inv(s) && CanCut(s, act, n, members, imgs) && Held(s, members)
    ensures Load(s.core.st.R, imgs).Ok? && |s.hist| <= Load(s.core.st.R, imgs).value.jhead
  {
    hide *;
    var e := CutElects(s, act, n, members, imgs);
    ElectedLoads(s, act, imgs, e);
    var core := Load(s.core.st.R, imgs).value;
    RecoveredState(s, act, e, core);
    CutIsBack(s, act, n, members, imgs);
    if core.jhead < |s.hist| {
      IsLate(s, core.jhead);
      BackReads(s, act, n, members, imgs, core.jhead);
      assert false;
    }
  }

  lemma IsLate(s: Sys, q: nat)
    ensures Late(s, q) <==> s.acked <= q < |s.hist|
  {
  }

  lemma CutIsBack(s: Sys, act: Act, n: nat, members: seq<nat>, imgs: seq<Image>)
    requires CanCut(s, act, n, members, imgs)
    ensures Back(s, act, n, members, imgs)
  {
    hide Back, NewHeader;
  }

  // ---- exactly ---------------------------------------------------------------------------------------

  /** whatever a power cut leaves of these members, the next load finds no less */
  ghost predicate AlwaysFound(s: Sys, members: seq<nat>) {
    forall act, n: nat, imgs :: Back(s, act, n, members, imgs) ==>
      Load(s.core.st.R, imgs).Ok? && |s.hist| <= Load(s.core.st.R, imgs).value.jhead
  }

  /** without it, a power cut right now loses the record */
  lemma FoundHeld(s: Sys, members: seq<nat>, q: nat)
    requires Inv(s) && QuietUntil(s) && Some(s, members) && HolderBack(s, members)
    requires AlwaysFound(s, members) && Late(s, q)
    ensures exists i :: 0 <= i < |members| && HasRecord(s, members[i], q)
  {
    hide *;
    IsLate(s, q);
    var imgs := CutNow(s, members);
    HolderCuts(s, Reserve(s.core.st.used), 0, members, imgs);
    var e := CutOther(s, Reserve(s.core.st.used), 0, members, imgs);
    ElectedLoads(s, Reserve(s.core.st.used), imgs, e);
    ElectableOk(s, Reserve(s.core.st.used), e);
    LateCovered(s, q);
    LoadedTail(e, Load(s.core.st.R, imgs).value);
    LoadRead(s.core.st.R, imgs, q);
    ElectedStored(e, imgs);
    var k := ReadRecord(e, imgs, q);
    QuietHas(s, members, imgs, k, q);
  }

  lemma LateCovered(s: Sys, q: nat)
    requires Inv(s) && Late(s, q)
    ensures BasedOn(s) && PerOf(s).hist == s.hist && PerOf(s).jtail <= q < |s.hist|
  {
    assert RingFits(PerOf(s));
    hide MemberOk, RecsOk, ApplyRecs, Coherent, DirtyCovers;
  }

  lemma LoadedTail(e: Per, core: Core)
    requires PerOk(e) && Recovered(e, core)
    ensures core.jtail == e.jtail
  {
    hide PerOk, RecsOk, ApplyRecs, AtRest, DirtyCovers;
  }

  /** the regions as they are now */
  lemma CutNow(s: Sys, members: seq<nat>) returns (imgs: seq<Image>)
    requires Inv(s) && Some(s, members) && AlwaysFound(s, members)
    ensures Back(s, Reserve(s.core.st.used), 0, members, imgs)
    ensures |imgs| == |members|
    ensures forall i :: 0 <= i < |members| ==> members[i] in s.disks && imgs[i] == s.disks[members[i]].cur
    ensures Load(s.core.st.R, imgs).Ok? && |s.hist| <= Load(s.core.st.R, imgs).value.jhead
  {
    imgs := seq(|members|, i requires 0 <= i < |members| => s.disks[members[i]].cur);
    hide Inv, Back, Load;
    NowBack(s, members, imgs);
  }

  lemma ElectedStored(e: Per, imgs: seq<Image>)
    requires Elected(e, imgs)
    ensures AllStored(e, imgs)
  {
    hide AllStored, HasHdr;
  }

  lemma QuietHas(s: Sys, members: seq<nat>, imgs: seq<Image>, k: nat, q: nat)
    requires QuietUntil(s) && Late(s, q) && k < |members| == |imgs| && members[k] in s.disks
    requires imgs[k] == s.disks[members[k]].cur && Rd(imgs[k], JrnlAt(q % JPAGES)) == Good(q, Jrnl(s.hist[q]))
    ensures HasRecord(s, members[k], q)
  {
  }

  /** What an earlier load replayed is found again by every load, whatever a power cut leaves of
      these members, exactly when each such record is on one of them. */
  lemma FoundExactly(s: Sys, members: seq<nat>)
    requires Inv(s) && QuietUntil(s) && Some(s, members) && HolderBack(s, members)
    ensures AlwaysFound(s, members) <==> Held(s, members)
  {
    hide Inv, QuietUntil, Some, HolderBack, Back, Load, HasRecord;
    if Held(s, members) {
      forall act, n: nat, imgs | Back(s, act, n, members, imgs)
        ensures Load(s.core.st.R, imgs).Ok? && |s.hist| <= Load(s.core.st.R, imgs).value.jhead
      {
        hide Held;
        HolderCuts(s, act, n, members, imgs);
        HeldFound(s, act, n, members, imgs);
      }
    }
    if AlwaysFound(s, members) {
      forall q: nat | Late(s, q) ensures exists i :: 0 <= i < |members| && HasRecord(s, members[i], q) {
        hide AlwaysFound;
        FoundHeld(s, members, q);
      }
    }
  }

  // ---- over runs -------------------------------------------------------------------------------------

  lemma AllBackHeld(s: Sys, members: seq<nat>)
    requires HeldBySome(s) && AllBack(s, members)
    ensures Held(s, members)
  {
    hide Holds;
    forall q: nat | Late(s, q) ensures exists i :: 0 <= i < |members| && HasRecord(s, members[i], q) {
      var m :| HasRecord(s, m, q);
      var i :| 0 <= i < |members| && members[i] == m;
      assert HasRecord(s, members[i], q);
    }
  }

  /** the load has read each record it replayed from some member */
  lemma CutHeld(s: Sys, act: Act, n: nat, members: seq<nat>, imgs: seq<Image>, t: Sys)
    requires Inv(s) && CanCut(s, act, n, members, imgs) && Reloaded(s, act, members, imgs, t)
    requires forall i :: 0 <= i < |members| ==> members[i] in t.disks
    ensures HeldBySome(t) && QuietUntil(t)
  {
    hide *;
    CutParts(s, act, n, members, imgs);
    var e := CutElects(s, act, n, members, imgs);
    ElectedLoads(s, act, imgs, e);
    ReloadedCore(s, act, members, imgs, t);
    ElectableOk(s, act, e);
    RecoveredHead(e, t.core);
    LoadedTail(e, t.core);
    ElectedStored(e, imgs);
    ReloadedHist(s, act, members, imgs, t, e);
    forall q: nat | Late(t, q) ensures q < |t.hist| && exists m :: HasRecord(t, m, q) {
      IsLate(t, q);
      LoadRead(s.core.st.R, imgs, q);
      var k := ReadRecord(e, imgs, q);
      ReloadedDisk(s, act, members, imgs, t, k);
      LoadedHas(t, members[k], imgs[k], q);
    }
    SomeHeld(t);
    ReloadedQuiet(s, act, members, imgs, t);
  }

  lemma ReloadedHist(s: Sys, act: Act, members: seq<nat>, imgs: seq<Image>, t: Sys, e: Per)
    requires |members| == |imgs| && Reloaded(s, act, members, imgs, t) && Electable(s, act, e)
    requires t.core.jhead <= |e.hist|
    ensures |t.hist| == t.core.jhead && t.core.jtail <= t.acked
    ensures forall q: nat :: q < |t.hist| ==> t.hist[q] == e.hist[q]
  {
    hide Load, PerOk, RecsOk, ApplyRecs;
  }

  lemma LoadedHas(t: Sys, m: nat, img: Image, q: nat)
    requires m in t.disks && t.disks[m] == Disk(img, map[]) && q < |t.hist|
    requires Rd(img, JrnlAt(q % JPAGES)) == Good(q, Jrnl(t.hist[q]))
    ensures HasRecord(t, m, q)
  {
  }

  lemma SomeHeld(t: Sys)
    requires forall q: nat :: Late(t, q) ==> q < |t.hist| && exists m :: HasRecord(t, m, q)
    ensures HeldBySome(t)
  {
    hide HasRecord;
  }

  lemma ReloadedQuiet(s: Sys, act: Act, members: seq<nat>, imgs: seq<Image>, t: Sys)
    requires |members| == |imgs| && Reloaded(s, act, members, imgs, t)
    ensures QuietUntil(t)
  {
    hide Load, Issued;
  }

  /** a completed commit or checkpoint leaves none of them late */
  lemma DoneHeld(s: Sys, act: Act, t: Sys)
    requires Inv(s) && HeldBySome(s) && QuietUntil(s) && Next(s, Done(act, {}), t)
    ensures HeldBySome(t) && QuietUntil(t)
  {
    assert Allowed(s.core, act);
    if act.Commit? || act.Checkpoint? {
      assert t.acked == |t.hist|;
    } else {
      if s.acked < |s.hist| {
        LateActs(s, act);
        DoneSame(s, act, t);
      } else {
        assert t.acked >= |t.hist|;
      }
    }
  }

  lemma DoneSame(s: Sys, act: Act, t: Sys)
    requires Next(s, Done(act, {}), t) && act.Reserve? && HeldBySome(s) && QuietUntil(s)
    ensures HeldBySome(t) && QuietUntil(t)
  {
    assert t.disks == s.disks && t.hist == s.hist && t.acked == s.acked;
    forall q: nat | Late(t, q) ensures exists m :: HasRecord(t, m, q) {
      assert Late(s, q);
      var m :| HasRecord(s, m, q);
      assert HasRecord(t, m, q);
    }
  }

  // ---- and how one is lost again ---------------------------------------------------------------------

  lemma OneRecord(core: Core, rec: seq<Op>)
    ensures var a := JrnlAt(core.jhead % JPAGES);
      CommitEvents(core, [rec], false) == [Write(a, Good(core.jhead, Jrnl(rec))), Fua(RingSet(core.jhead, 0, 1))]
  {
    var pages := RecordPages(core.jhead, [rec]);
    assert pages == [Good(core.jhead, Jrnl(rec))];
    assert RingWrites(core.jhead, pages, 0, 1)
        == RingWrites(core.jhead, pages, 0, 0) + [Write(RingAt(core.jhead, 0), pages[0])];
  }

  /** the record landed, and torn */
  lemma RecordImages(d: Disk, a: Addr, pg: Page, evs: seq<Ev>)
    requires |evs| == 2 && evs[0] == Write(a, pg)
    ensures IsImage(DoAll(d, evs[..1]), d.cur[a := pg]) && IsImage(DoAll(d, evs[..1]), d.cur[a := Bad])
  {
    assert evs[..1][..0] == [];
    assert DoAll(d, evs[..1]) == Do(DoAll(d, []), evs[0]);
    WriteLeaves(d, a, pg, pg);
    WriteLeaves(d, a, pg, Bad);
  }

  lemma WriteLeaves(d: Disk, a: Addr, pg: Page, left: Page)
    requires left == pg || left == Bad
    ensures IsImage(Do(d, Write(a, pg)), d.cur[a := left])
  {
    var e, img := Do(d, Write(a, pg)), d.cur[a := left];
    forall b ensures Possible(e, b, Rd(img, b)) {
    }
  }

  lemma SplitBack(s: Sys, rec: seq<Op>, m1: nat, m2: nat, imgs: seq<Image>)
    requires CanCommit(s.core, [rec]) && m1 in s.disks && m2 in s.disks && m1 != m2 && Holder(s, m1)
    requires var a := JrnlAt(s.core.jhead % JPAGES);
      imgs == [s.disks[m1].cur[a := Good(s.core.jhead, Jrnl(rec))], s.disks[m2].cur[a := Bad]]
    ensures Back(s, Commit([rec], false), 1, [m1, m2], imgs) && HolderBack(s, [m1, m2])
  {
    var a, pg := JrnlAt(s.core.jhead % JPAGES), Good(s.core.jhead, Jrnl(rec));
    OneRecord(s.core, rec);
    RecordImages(s.disks[m1], a, pg, CommitEvents(s.core, [rec], false));
    RecordImages(s.disks[m2], a, pg, CommitEvents(s.core, [rec], false));
    hide CanCommit, CommitEvents, DoAll, IsImage, Holder;
    assert [m1, m2][0] == m1;
  }

  lemma AllAcked(s: Sys)
    requires Inv(s) && !s.core.scrub
    ensures s.acked == |s.hist| == s.core.jhead && BasedOn(s) && PerOf(s).jtail <= s.acked
  {
    assert RingFits(PerOf(s));
    hide MemberOk, RecsOk, ApplyRecs, Coherent, DirtyCovers;
  }

  /** the load takes the record that landed */
  lemma SplitTaken(s: Sys, rec: seq<Op>, m1: nat, m2: nat, imgs: seq<Image>) returns (t: Sys)
    requires Inv(s) && AllHold(s) && CanCommit(s.core, [rec]) && m1 in s.disks && m2 in s.disks && m1 != m2
    requires var a := JrnlAt(s.core.jhead % JPAGES);
      imgs == [s.disks[m1].cur[a := Good(s.core.jhead, Jrnl(rec))], s.disks[m2].cur[a := Bad]]
    ensures CanCut(s, Commit([rec], false), 1, [m1, m2], imgs)
    ensures Reloaded(s, Commit([rec], false), [m1, m2], imgs, t)
    ensures t.hist == s.hist + [rec] && t.acked == |s.hist|
    ensures m2 in t.disks && t.disks[m2] == Disk(imgs[1], map[]) && Holder(t, m2)
  {
    var act := Commit([rec], false);
    assert Holder(s, m1) && Holder(s, m2);
    assert Rd(imgs[0], JrnlAt(s.core.jhead % JPAGES)) == Good(s.core.jhead, Jrnl(rec));
    hide *;
    SplitBack(s, rec, m1, m2, imgs);
    HolderCuts(s, act, 1, [m1, m2], imgs);
    Scrubbed(s, rec);
    AllAcked(s);
    var e := CutCommit(s, [rec], false, 1, [m1, m2], imgs);
    ElectedLoads(s, act, imgs, e);
    var core := Load(s.core.st.R, imgs).value;
    RecoveredState(s, act, e, core);
    HeadPast(s, rec, imgs, core.jhead);
    t := Reload(s, act, m1, m2, imgs);
    SplitHist(s, rec, m1, m2, imgs, t, e);
    ReloadedPer(s, act, [m1, m2], imgs, t, e);
    SplitHolds(s, rec, m1, m2, imgs, t, e);
  }

  lemma Scrubbed(s: Sys, rec: seq<Op>)
    requires CanCommit(s.core, [rec])
    ensures !s.core.scrub && Allowed(s.core, Commit([rec], false))
  {
    hide RecsOk;
  }

  lemma HeadPast(s: Sys, rec: seq<Op>, imgs: seq<Image>, head: nat)
    requires NoRecord(imgs, head) && s.acked == |s.hist| == s.core.jhead && s.acked <= head
    requires head <= |Issued(s, Commit([rec], false))| && |imgs| > 0
    requires Rd(imgs[0], JrnlAt(s.core.jhead % JPAGES)) == Good(s.core.jhead, Jrnl(rec))
    ensures head == |s.hist| + 1
  {
    assert Offers(imgs[0], JrnlAt(s.core.jhead % JPAGES), Exactly(s.core.jhead), s.core.jhead, Jrnl(rec));
  }

  lemma SplitHist(s: Sys, rec: seq<Op>, m1: nat, m2: nat, imgs: seq<Image>, t: Sys, e: Per)
    requires |imgs| == 2 && Reloaded(s, Commit([rec], false), [m1, m2], imgs, t) && t.core.jhead == |s.hist| + 1
    requires s.acked == |s.hist| && t.core.jtail == e.jtail <= s.acked
    ensures t.hist == s.hist + [rec] && t.acked == |s.hist|
  {
    hide Load;
  }

  lemma SplitHolds(s: Sys, rec: seq<Op>, m1: nat, m2: nat, imgs: seq<Image>, t: Sys, e: Per)
    requires Inv(s) && Allowed(s.core, Commit([rec], false)) && Holder(s, m2) && |imgs| == 2 && m1 != m2
    requires Back(s, Commit([rec], false), 1, [m1, m2], imgs)
    requires BasedOn(s) && e == Sent(PerOf(s), [rec]) && BasedOn(t)
    requires t.core.jhead <= |e.hist| && PerOf(t) == Cut(e, t.core.jhead)
    requires m2 in t.disks && t.disks[m2] == Disk(imgs[1], map[])
    ensures Holder(t, m2)
  {
    hide *;
    BackImage(s, Commit([rec], false), 1, [m1, m2], imgs, 1);
    HolderImage(s, Commit([rec], false), 1, m2, imgs[1]);
    SentHeader(PerOf(s), rec, t.core.jhead, imgs[1]);
    QuietHeader(PerOf(t), imgs[1]);
    HolderFrom(t, m2);
  }

  lemma SentHeader(per: Per, rec: seq<Op>, j: nat, img: Image)
    requires HasHdr(per, img) && j <= |Sent(per, [rec]).hist|
    ensures HasHdr(Cut(Sent(per, [rec]), j), img)
  {
  }

  /** A power cut while a record is written may leave it on one member only.  The load replays it,
      and until the worker settles nothing puts it on the others: that member lost, the next load
      does without a record that the array was already running on. */
  lemma SplitRecord(s: Sys, rec: seq<Op>, m1: nat, m2: nat) returns (imgs: seq<Image>, t: Sys)
    requires Inv(s) && AllHold(s) && CanCommit(s.core, [rec]) && m1 in s.disks && m2 in s.disks && m1 != m2
    ensures Next(s, PowerCut(Commit([rec], false), 1, [m1, m2], imgs), t)
    ensures t.hist == s.hist + [rec] && HolderBack(t, [m2]) && !AlwaysFound(t, [m2])
  {
    var a := JrnlAt(s.core.jhead % JPAGES);
    imgs := [s.disks[m1].cur[a := Good(s.core.jhead, Jrnl(rec))], s.disks[m2].cur[a := Bad]];
    assert Rd(imgs[1], a) == Bad;
    hide *;
    t := SplitTaken(s, rec, m1, m2, imgs);
    Scrubbed(s, rec);
    AllAcked(s);
    CutIsNext(s, Commit([rec], false), 1, [m1, m2], imgs, t);
    CutKeeps(s, Commit([rec], false), 1, [m1, m2], imgs, t);
    ReloadedQuiet(s, Commit([rec], false), [m1, m2], imgs, t);
    OneHolder(t, m2);
    NotHeld(t, m2, imgs[1]);
    FoundExactly(t, [m2]);
  }

  lemma NotHeld(t: Sys, m: nat, img: Image)
    requires t.acked == |t.hist| - 1 && m in t.disks && t.disks[m] == Disk(img, map[])
    requires Rd(img, JrnlAt(t.acked % JPAGES)) == Bad
    ensures Some(t, [m]) && !Held(t, [m])
  {
    assert Late(t, t.acked);
    assert !HasRecord(t, m, t.acked);
  }
}
