/** Whole runs of the metadata of an array: commits, checkpoints and scrubs in any order the
    worker may take them, members failing, and power cuts after any event of any of them,
    each followed by a load from the members that come back. */
module SnapRun {
  import opened SnapState
  import opened SnapDerive
  import opened SnapRegion
  import opened SnapLoad
  import opened SnapStored
  import opened SnapReplay
  import opened SnapRecover
  import opened SnapCheckpoint
  import opened SnapCommit

  // ---- the array --------------------------------------------------------------------------

  /** The in-core state and each member's region; and, as a record of what happened, every
      journal record written since the array was made and how many of them were
      acknowledged or are in a checkpoint. */
  datatype Sys = Sys(core: Core, disks: map<nat, Disk>, hist: seq<seq<Op>>, acked: nat)

  datatype Act =
    | Commit(recs: seq<seq<Op>>, data: bool)
    | Checkpoint(full: bool)
    | Scrub
    | Reserve(used: set<nat>)    // a COW takes a row, or gives it back

  function Events(core: Core, act: Act): seq<Ev> {
    match act
    case Commit(recs, data) => CommitEvents(core, recs, data)
    case Checkpoint(full) => CheckpointEvents(core, full)
    case Scrub => ScrubEvents(core)
    case Reserve(_) => []
  }

  ghost predicate Allowed(core: Core, act: Act) {
    match act
    case Commit(recs, _) => CanCommit(core, recs)
    case Checkpoint(_) => true
    case Scrub => core.scrub && core.jhead == core.jtail
    case Reserve(used) => UsedCovers(core.st.(used := used))
  }

  ghost function After(core: Core, act: Act): Core
    requires Allowed(core, act)
  {
    match act
    case Commit(recs, _) => AfterCommit(core, recs)
    case Checkpoint(full) => AfterCheckpoint(core, full)
    case Scrub => core.(scrub := false)
    case Reserve(used) => core.(st := core.st.(used := used))
  }

  /** every record there is once the act is under way */
  function Issued(s: Sys, act: Act): seq<seq<Op>> {
    if act.Commit? then s.hist + act.recs else s.hist
  }

  function Most(a: nat, b: nat): nat {
    if a < b then b else a
  }

  /** this region has a header as new as the running checkpoint's */
  predicate NewHeader(core: Core, img: Image) {
    exists i: nat :: i < 2 && HeaderAt(img, i, core.ckpt)
  }

  predicate HeaderAt(img: Image, i: nat, c: nat) {
    Rd(img, HdrAt(i)).Good? && Rd(img, HdrAt(i)).gen >= c
  }

  datatype Move =
    | Done(act: Act, lost: set<nat>)
    | PowerCut(act: Act, n: nat, members: seq<nat>, imgs: seq<Image>)

  /** What a power cut may leave after n events of the act: some of the members still in the
      array come back, each with a region it may then have. */
  ghost predicate Back(s: Sys, act: Act, n: nat, members: seq<nat>, imgs: seq<Image>) {
    && Allowed(s.core, act) && n <= |Events(s.core, act)| && |members| == |imgs|
    && (forall i :: 0 <= i < |members| ==> members[i] in s.disks)
    && (forall i, j :: 0 <= i < j < |members| ==> members[i] != members[j])
    && forall i :: 0 <= i < |members| ==> IsImage(DoAll(s.disks[members[i]], Events(s.core, act)[..n]), imgs[i])
  }

  /** ... and the newest header is on one of them */
  ghost predicate CanCut(s: Sys, act: Act, n: nat, members: seq<nat>, imgs: seq<Image>) {
    Back(s, act, n, members, imgs) && exists i :: 0 <= i < |imgs| && NewHeader(s.core, imgs[i])
  }

  /** the array as rk_sn_load leaves it */
  ghost predicate Reloaded(s: Sys, act: Act, members: seq<nat>, imgs: seq<Image>, t: Sys)
    requires |members| == |imgs|
  {
    && Load(s.core.st.R, imgs) == Ok(t.core)
    && (forall m :: m in t.disks ==> exists i :: 0 <= i < |imgs| && members[i] == m && t.disks[m] == Disk(imgs[i], map[]))
    && t.core.jhead <= |Issued(s, act)| && t.hist == Issued(s, act)[..t.core.jhead]
    && t.acked == Most(s.acked, t.core.jtail)
  }

  /** the act completed */
  ghost predicate Completed(s: Sys, act: Act, t: Sys) {
    && Allowed(s.core, act) && t.core == After(s.core, act) && t.hist == Issued(s, act)
    && t.acked == (if act.Commit? || act.Checkpoint? then |t.hist| else s.acked)
  }

  ghost predicate Next(s: Sys, mv: Move, t: Sys) {
    match mv
    case Done(act, lost) =>
      Completed(s, act, t)
      && t.disks == (map m | m in s.disks && m !in lost :: DoAll(s.disks[m], Events(s.core, act)))
    case PowerCut(act, n, members, imgs) =>
      CanCut(s, act, n, members, imgs) && Reloaded(s, act, members, imgs, t)
  }

  ghost predicate Reaches(s: Sys, moves: seq<Move>, t: Sys)
    decreases |moves|
  {
    if moves == [] then s == t
    else exists u: Sys :: Next(s, moves[0], u) && Reaches(u, moves[1..], t)
  }

  // ---- what every run keeps ----------------------------------------------------------------------

  /** every record in order, applied to the array without snapshots, is the state */
  ghost predicate StateIs(st: St, hist: seq<seq<Op>>) {
    UsedCovers(st) && RecsOk(Fresh(st.R, st.O), hist) && Settled(st) == ApplyRecs(Fresh(st.R, st.O), hist)
  }

  ghost predicate BasedOn(s: Sys) {
    s.core.jtail <= |s.hist| && RecsOk(Fresh(s.core.st.R, s.core.st.O), s.hist[..s.core.jtail])
  }

  /** the durable history: the checkpoint is the records before it, applied */
  ghost function PerOf(s: Sys): Per
    requires BasedOn(s)
  {
    Per(s.core.pct, s.core.ckpt, s.core.jtail, ApplyRecs(Fresh(s.core.st.R, s.core.st.O), s.hist[..s.core.jtail]),
        s.core.pmap, s.hist, s.acked)
  }

  ghost predicate MemberOk(s: Sys, d: Disk)
    requires BasedOn(s)
  {
    Safe(PerOf(s), d) && (!s.core.scrub ==> Clean(s.core.jhead, d))
  }

  ghost predicate Inv(s: Sys) {
    && BasedOn(s) && InCore(s.core, PerOf(s))
    && (!s.core.scrub ==> s.acked == |s.hist|)
    && forall m :: m in s.disks ==> MemberOk(s, s.disks[m])
  }

  lemma HistoryJoins(st: St, hist: seq<seq<Op>>, i: nat, j: nat)
    requires i <= j <= |hist| && RecsOk(st, hist[..i]) && RecsOk(ApplyRecs(st, hist[..i]), hist[i..j])
    ensures RecsOk(st, hist[..j])
    ensures ApplyRecs(st, hist[..j]) == ApplyRecs(ApplyRecs(st, hist[..i]), hist[i..j])
  {
    assert hist[..j] == hist[..i] + hist[i..j];
    RecsSplit(st, hist[..i], hist[i..j]);
  }

  /** The running state is always all the records, in commit order. */
  lemma InvState(s: Sys)
    requires Inv(s)
    ensures StateIs(s.core.st, s.hist)
  {
    var st, j := Fresh(s.core.st.R, s.core.st.O), s.core.jtail;
    assert s.hist[j..|s.hist|] == s.hist[j..] && s.hist[..|s.hist|] == s.hist;
    hide MemberOk, RecsOk, ApplyRecs, Fresh, Coherent, DirtyCovers, AtRest, PmapFits;
    HistoryJoins(st, s.hist, j, |s.hist|);
  }

  // ---- completed acts ---------------------------------------------------------------------------------

  lemma PerAfterCheckpoint(s: Sys, full: bool, t: Sys)
    requires Inv(s) && t.core == AfterCheckpoint(s.core, full) && t.hist == s.hist && t.acked == |s.hist|
    ensures BasedOn(t) && PerOf(t) == NextPer(s.core, PerOf(s), full)
  {
    InvState(s);
    assert s.hist[..|s.hist|] == s.hist;
    hide MemberOk, Coherent, DirtyCovers, PerOk;
  }

  lemma PerAfterCommit(s: Sys, recs: seq<seq<Op>>, t: Sys)
    requires Inv(s) && CanCommit(s.core, recs) && t.core == AfterCommit(s.core, recs)
    requires t.hist == s.hist + recs && t.acked == |t.hist|
    ensures BasedOn(t) && PerOf(t) == Acked(Sent(PerOf(s), recs))
  {
    RunningRecs(PerOf(s).base.rmap, Live(s.core.st, s.core.rdirty), recs);
    assert t.hist[..t.core.jtail] == s.hist[..s.core.jtail];
    hide MemberOk, Coherent, DirtyCovers, PerOk, LiveRecs;
  }

  lemma ReserveInCore(core: Core, per: Per, used: set<nat>)
    requires InCore(core, per) && UsedCovers(core.st.(used := used))
    ensures InCore(core.(st := core.st.(used := used)), per)
  {
    ReserveCoherent(core.st, used);
    hide PerOk, ApplyRecs, RmapPage, RmapPages, Coherent, UsedCovers;
  }

  lemma DoneInCore(s: Sys, act: Act, t: Sys)
    requires Inv(s) && Completed(s, act, t)
    ensures BasedOn(t) && InCore(t.core, PerOf(t)) && (!t.core.scrub ==> t.acked == |t.hist|)
    ensures PerOf(t) == match act
                        case Commit(recs, _) => Acked(Sent(PerOf(s), recs))
                        case Checkpoint(full) => NextPer(s.core, PerOf(s), full)
                        case _ => PerOf(s)
  {
    match act {
      case Commit(recs, _) =>
        PerAfterCommit(s, recs, t);
        CommitInCore(s.core, PerOf(s), recs);
        hide InCore, MemberOk, ApplyRecs, RecsOk, LiveRecs;
      case Checkpoint(full) =>
        PerAfterCheckpoint(s, full, t);
        CheckpointInCore(s.core, PerOf(s), full);
        hide InCore, MemberOk, ApplyRecs, RecsOk, NextPmap;
      case Scrub =>
        assert t.core.st == s.core.st && RingFits(PerOf(s));
        hide MemberOk, Coherent, PerOk, ApplyRecs, RecsOk, DirtyCovers, Fresh;
      case Reserve(used) =>
        ReserveInCore(s.core, PerOf(s), used);
        hide InCore, MemberOk, ApplyRecs, RecsOk, Fresh;
    }
  }

  lemma CheckpointNoRecords(core: Core, per: Per, full: bool, i: nat)
    requires core.pmap == per.pmap && core.ckpt == per.ckpt && PmapFits(per)
    requires i < |CheckpointEvents(core, full)|
    ensures CheckpointEvents(core, full)[i].Write? ==> !CheckpointEvents(core, full)[i].a.JrnlAt?
  {
    var ev := CheckpointEvents(core, full)[i];
    BodySpare(core, per, full);
    if i < |BodyEvents(core, full)| {
      assert ev == BodyEvents(core, full)[i];
      hide BodyEvents;
      if ev.Write? {
        SpareKinds(per, ev.a);
      }
    } else {
      assert ev == HdrEvents(core)[i - |BodyEvents(core, full)|];
    }
  }

  lemma CheckpointClean(core: Core, per: Per, full: bool, d: Disk)
    requires InCore(core, per) && Clean(core.jhead, d)
    ensures Clean(core.jhead, DoAll(d, CheckpointEvents(core, full)))
  {
    var evs := CheckpointEvents(core, full);
    assert core.pmap == per.pmap && core.ckpt == per.ckpt && PmapFits(per);
    hide InCore, Clean, PmapFits, CheckpointEvents;
    forall i | 0 <= i < |evs| ensures OlderWrite(core.jhead, evs[i]) {
      CheckpointNoRecords(core, per, full, i);
    }
    CleanAll(core.jhead, d, evs);
  }

  lemma DoneMember(s: Sys, act: Act, d: Disk, t: Sys)
    requires Inv(s) && Completed(s, act, t) && MemberOk(s, d)
    ensures BasedOn(t) && MemberOk(t, DoAll(d, Events(s.core, act)))
  {
    DoneInCore(s, act, t);
    var per := PerOf(s);
    match act {
      case Commit(recs, data) =>
        hide InCore, Safe, Clean, CommitEvents, LiveRecs, PerOf, BasedOn;
        CommitDone(s.core, per, recs, data, d);
      case Checkpoint(full) =>
        hide InCore, Safe, Clean, CheckpointEvents, NextPmap, PerOf, BasedOn;
        CheckpointDone(s.core, per, full, d);
        if !s.core.scrub {
          CheckpointClean(s.core, per, full, d);
        }
      case Scrub =>
        var evs := ScrubEvents(s.core);
        assert evs[..|evs|] == evs;
        hide InCore, Safe, Clean, ScrubEvents, PerOf, BasedOn;
        ScrubSafe(s.core, per, d, |evs|);
        ScrubCleans(s.core, per, d);
      case Reserve(_) =>
        hide InCore, Safe, Clean, PerOf, BasedOn;
    }
  }

  lemma DoneKeeps(s: Sys, act: Act, lost: set<nat>, t: Sys)
    requires Inv(s) && Next(s, Done(act, lost), t)
    ensures Inv(t)
  {
    DoneInCore(s, act, t);
    hide InCore, Completed, PerOf, BasedOn, DoAll, MemberOk;
    forall m | m in t.disks ensures MemberOk(t, t.disks[m]) {
      assert MemberOk(s, s.disks[m]);
      assert t.disks[m] == DoAll(s.disks[m], Events(s.core, act));
      hide Inv;
      DoneMember(s, act, s.disks[m], t);
    }
  }

  // ---- power cuts ----------------------------------------------------------------------------------------

  /** a history a load may elect: what was issued, from a checkpoint made of its records */
  ghost predicate Electable(s: Sys, act: Act, e: Per) {
    && PerOk(e) && e.hist == Issued(s, act) && e.acked == Most(s.acked, e.jtail)
    && e.base.R == s.core.st.R && e.base.O == s.core.st.O
    && RecsOk(Fresh(e.base.R, e.base.O), e.hist[..e.jtail])
    && e.base == ApplyRecs(Fresh(e.base.R, e.base.O), e.hist[..e.jtail])
  }

  ghost predicate Elected(e: Per, imgs: seq<Image>) {
    AllStored(e, imgs) && exists k :: 0 <= k < |imgs| && HasHdr(e, imgs[k])
  }

  lemma HeaderIs(per: Per, core: Core, img: Image)
    requires Stored(per, img) && NewHeader(core, img) && core.ckpt == per.ckpt
    ensures HasHdr(per, img)
  {
    var i: nat :| i < 2 && HeaderAt(img, i, core.ckpt);
    assert HdrCopyOk(per, i, Rd(img, HdrAt(i)));
    hide TblImg, PmapImg, RmapImg, RingImg, AckedImg, HdrBody, RingFits;
  }

  lemma ElectedOld(per: Per, core: Core, imgs: seq<Image>)
    requires AllStored(per, imgs) && core.ckpt == per.ckpt
    requires exists i :: 0 <= i < |imgs| && NewHeader(core, imgs[i])
    ensures Elected(per, imgs)
  {
    var i :| 0 <= i < |imgs| && NewHeader(core, imgs[i]);
    hide Stored, HasHdr, NewHeader;
    HeaderIs(per, core, imgs[i]);
  }

  lemma CutCommit(s: Sys, recs: seq<seq<Op>>, data: bool, n: nat, members: seq<nat>, imgs: seq<Image>) returns (e: Per)
    requires Inv(s) && CanCut(s, Commit(recs, data), n, members, imgs)
    ensures Electable(s, Commit(recs, data), e) && Elected(e, imgs)
    ensures BasedOn(s) && e == Sent(PerOf(s), recs)
  {
    var per := PerOf(s);
    e := Sent(per, recs);
    CommitInCore(s.core, per, recs);
    assert e.hist[..e.jtail] == s.hist[..s.core.jtail];
    assert AllStored(e, imgs) by {
      hide InCore, Safe, Clean, Stored, PerOf, BasedOn, PerOk, NewHeader;
      forall i | 0 <= i < |imgs| ensures Stored(e, imgs[i]) {
        var d := s.disks[members[i]];
        assert MemberOk(s, d);
        CommitSafe(s.core, per, recs, data, d, n);
        hide Inv, CommitEvents, DoAll, CanCommit;
        SafeAt(e, DoAll(d, CommitEvents(s.core, recs, data)[..n]), imgs[i]);
      }
    }
    hide Inv, InCore, AllStored, CanCommit, Events, PerOk, RecsOk, ApplyRecs;
    ElectedOld(e, s.core, imgs);
  }

  lemma SafeAt(per: Per, d: Disk, img: Image)
    requires Safe(per, d) && IsImage(d, img)
    ensures Stored(per, img)
  {
  }

  /** the checkpoint as it was, and as it will be, are both histories of the same records */
  lemma BothElectable(s: Sys, full: bool)
    requires Inv(s)
    ensures Electable(s, Checkpoint(full), PerOf(s))
    ensures UsedCovers(s.core.st) && Electable(s, Checkpoint(full), NextPer(s.core, PerOf(s), full))
  {
    var t := s.(core := AfterCheckpoint(s.core, full), acked := |s.hist|);
    PerAfterCheckpoint(s, full, t);
    NextPerOk(s.core, PerOf(s), full);
    assert RingFits(PerOf(s));
    hide MemberOk, Coherent, DirtyCovers, AtRest, PmapFits, NextPmap, RecsOk, ApplyRecs;
  }

  lemma CheckpointAt(s: Sys, full: bool, d: Disk, n: nat, img: Image)
    requires Inv(s) && MemberOk(s, d) && n <= |CheckpointEvents(s.core, full)|
    requires IsImage(DoAll(d, CheckpointEvents(s.core, full)[..n]), img)
    ensures var next := NextPer(s.core, PerOf(s), full);
      if n <= |BodyEvents(s.core, full)| then Stored(PerOf(s), img)
      else Stored(next, img) && (HasHdr(next, img) || Stored(PerOf(s), img))
  {
    hide Safe, Clean, Stored, HasHdr, PerOf, BasedOn, InCore, CheckpointEvents, BodyEvents, DoAll, IsImage;
    CheckpointCrash(s.core, PerOf(s), full, d, n, img);
  }

  lemma CutCheckpoint(s: Sys, full: bool, n: nat, members: seq<nat>, imgs: seq<Image>) returns (e: Per)
    requires Inv(s) && CanCut(s, Checkpoint(full), n, members, imgs)
    ensures Electable(s, Checkpoint(full), e) && Elected(e, imgs)
  {
    var per := PerOf(s);
    BothElectable(s, full);
    var next := NextPer(s.core, per, full);
    hide Stored, HasHdr, NewHeader, Electable, NextPer, PerOf, BasedOn, InCore;
    forall i | 0 <= i < |imgs|
      ensures if n <= |BodyEvents(s.core, full)| then Stored(per, imgs[i])
              else Stored(next, imgs[i]) && (HasHdr(next, imgs[i]) || Stored(per, imgs[i]))
    {
      var d := s.disks[members[i]];
      assert MemberOk(s, d);
      hide MemberOk, Inv, BodyEvents, CheckpointEvents, DoAll, IsImage;
      CheckpointAt(s, full, d, n, imgs[i]);
    }
    hide CanCut, BodyEvents;
    if n > |BodyEvents(s.core, full)| && exists k :: 0 <= k < |imgs| && HasHdr(next, imgs[k]) {
      e := next;
    } else {
      e := per;
      assert s.core.ckpt == per.ckpt;
      assert exists i :: 0 <= i < |imgs| && NewHeader(s.core, imgs[i]);
      ElectedOld(per, s.core, imgs);
    }
  }

  lemma CutOther(s: Sys, act: Act, n: nat, members: seq<nat>, imgs: seq<Image>) returns (e: Per)
    requires Inv(s) && CanCut(s, act, n, members, imgs) && (act.Scrub? || act.Reserve?)
    ensures Electable(s, act, e) && Elected(e, imgs)
    ensures BasedOn(s) && e == PerOf(s)
  {
    e := PerOf(s);
    BothElectable(s, false);
    assert s.core.ckpt == e.ckpt;
    hide Stored, NewHeader, Electable, PerOf, BasedOn, InCore, Safe, Clean, IsImage;
    forall i | 0 <= i < |imgs| ensures Stored(e, imgs[i]) {
      var d := s.disks[members[i]];
      assert MemberOk(s, d);
      hide Inv, ScrubEvents;
      if act.Scrub? {
        ScrubSafe(s.core, e, d, n);
        SafeAt(e, DoAll(d, ScrubEvents(s.core)[..n]), imgs[i]);
      } else {
        SafeAt(e, d, imgs[i]);
      }
    }
    ElectedOld(e, s.core, imgs);
    OtherElectable(s, act, e);
  }

  lemma OtherElectable(s: Sys, act: Act, e: Per)
    requires Electable(s, Checkpoint(false), e) && (act.Scrub? || act.Reserve?)
    ensures Electable(s, act, e)
  {
    hide PerOk, RecsOk, ApplyRecs;
  }

  /** Whatever was under way, the regions that come back agree on one history. */
  lemma CutElects(s: Sys, act: Act, n: nat, members: seq<nat>, imgs: seq<Image>) returns (e: Per)
    requires Inv(s) && CanCut(s, act, n, members, imgs)
    ensures Electable(s, act, e) && Elected(e, imgs)
  {
    hide Inv, CanCut, Electable, Elected;
    match act {
      case Commit(recs, data) => e := CutCommit(s, recs, data, n, members, imgs);
      case Checkpoint(full) => e := CutCheckpoint(s, full, n, members, imgs);
      case _ => e := CutOther(s, act, n, members, imgs);
    }
  }

  lemma ElectedLoads(s: Sys, act: Act, imgs: seq<Image>, e: Per)
    requires Electable(s, act, e) && Elected(e, imgs)
    ensures Load(s.core.st.R, imgs).Ok?
    ensures Recovered(e, Load(s.core.st.R, imgs).value) && NoRecord(imgs, Load(s.core.st.R, imgs).value.jhead)
  {
    hide Load, AllStored, HasHdr, PerOk, RecsOk, ApplyRecs, Recovered, NoRecord;
    var k :| 0 <= k < |imgs| && HasHdr(e, imgs[k]);
    LoadRecovers(e, imgs, k);
  }

  lemma RecoveredState(s: Sys, act: Act, e: Per, core: Core)
    requires Electable(s, act, e) && Recovered(e, core)
    ensures core.jtail == e.jtail && s.acked <= core.jhead <= |Issued(s, act)|
    ensures StateIs(core.st, Issued(s, act)[..core.jhead]) && Settled(core.st) == core.st
  {
    CoherentParts(core.st);
    assert Settled(core.st) == core.st;
    hide Coherent, DirtyCovers, PmapFits, Fresh, RecsOk, ApplyRecs;
    HistoryJoins(Fresh(e.base.R, e.base.O), e.hist, e.jtail, core.jhead);
  }

  /** Crash recovery.  After a power cut at any point of any act, whichever members come back
      with whatever the cut left of their unflushed writes, loading succeeds, and the state is
      the one of a prefix of the records in commit order with every acknowledged one in it. */
  lemma CutRecovers(s: Sys, act: Act, n: nat, members: seq<nat>, imgs: seq<Image>)
    requires Inv(s) && CanCut(s, act, n, members, imgs)
    ensures Load(s.core.st.R, imgs).Ok?
    ensures var core := Load(s.core.st.R, imgs).value;
      s.acked <= core.jhead <= |Issued(s, act)| && StateIs(core.st, Issued(s, act)[..core.jhead])
  {
    hide Inv, CanCut, Load, Electable, Elected, Recovered, NoRecord, StateIs;
    var e := CutElects(s, act, n, members, imgs);
    ElectedLoads(s, act, imgs, e);
    RecoveredState(s, act, e, Load(s.core.st.R, imgs).value);
  }

  // ---- the array after the load -----------------------------------------------------------------------------

  lemma {:induction false} AppliedNextId(st: St, ops: seq<Op>)
    requires OpsOk(st, ops)
    ensures ApplyAll(st, ops).nextId >= st.nextId
    decreases |ops|
  {
    if ops != [] {
      NextIdKept(st, ops[0]);
      AppliedNextId(Apply(st, ops[0]), ops[1..]);
    }
  }

  lemma {:induction false} RecsNextId(st: St, recs: seq<seq<Op>>)
    requires RecsOk(st, recs)
    ensures ApplyRecs(st, recs).nextId >= st.nextId
    decreases |recs|
  {
    if recs != [] {
      AppliedNextId(st, recs[0]);
      RecsNextId(ApplyAll(st, recs[0]), recs[1..]);
    }
  }

  lemma CutInCore(e: Per, core: Core)
    requires PerOk(e) && Recovered(e, core)
    ensures InCore(core, Cut(e, core.jhead))
  {
    var cut := Cut(e, core.jhead);
    CoherentParts(core.st);
    assert Settled(core.st) == core.st;
    assert cut.hist[cut.jtail..] == e.hist[e.jtail..core.jhead];
    RecsNextId(e.base, e.hist[e.jtail..core.jhead]);
    hide Coherent, DirtyCovers, RecsOk, ApplyRecs, RmapPages;
  }

  lemma ReloadedPer(s: Sys, act: Act, members: seq<nat>, imgs: seq<Image>, t: Sys, e: Per)
    requires |members| == |imgs| && Reloaded(s, act, members, imgs, t)
    requires Electable(s, act, e) && Recovered(e, t.core)
    ensures BasedOn(t) && PerOf(t) == Cut(e, t.core.jhead)
  {
    assert t.hist[..t.core.jtail] == e.hist[..e.jtail];
    hide Load, DirtyCovers, AtRest, RecsOk, ApplyRecs, Fresh, PmapFits;
  }

  lemma CutKeeps(s: Sys, act: Act, n: nat, members: seq<nat>, imgs: seq<Image>, t: Sys)
    requires Inv(s) && CanCut(s, act, n, members, imgs) && Reloaded(s, act, members, imgs, t)
    ensures Inv(t)
  {
    assert |members| == |imgs|;
    hide Inv, CanCut, Electable, Elected, Recovered, NoRecord, InCore, PerOf, BasedOn, Reloaded, Safe;
    var e := CutElects(s, act, n, members, imgs);
    ElectedLoads(s, act, imgs, e);
    ReloadedCore(s, act, members, imgs, t);
    ReloadedPer(s, act, members, imgs, t, e);
    ElectableOk(s, act, e);
    CutInCore(e, t.core);
    forall m | m in t.disks ensures MemberOk(t, t.disks[m]) {
      ReloadedMember(s, act, members, imgs, t, e, m);
    }
    InvFrom(t);
  }

  lemma ReloadedCore(s: Sys, act: Act, members: seq<nat>, imgs: seq<Image>, t: Sys)
    requires |members| == |imgs| && Reloaded(s, act, members, imgs, t)
    ensures Load(s.core.st.R, imgs) == Ok(t.core) && t.core.scrub
  {
    hide Derive, LoadHeader, LoadTable, LoadPmap, LoadRmap, ReplayFrom;
  }

  lemma ElectableOk(s: Sys, act: Act, e: Per)
    requires Electable(s, act, e)
    ensures PerOk(e)
  {
  }

  lemma InvFrom(t: Sys)
    requires BasedOn(t) && InCore(t.core, PerOf(t)) && t.core.scrub
    requires forall m :: m in t.disks ==> MemberOk(t, t.disks[m])
    ensures Inv(t)
  {
  }

  lemma ReloadedMember(s: Sys, act: Act, members: seq<nat>, imgs: seq<Image>, t: Sys, e: Per, m: nat)
    requires |members| == |imgs| && Reloaded(s, act, members, imgs, t)
    requires PerOk(e) && Elected(e, imgs) && Recovered(e, t.core) && NoRecord(imgs, t.core.jhead) && t.core.scrub
    requires BasedOn(t) && PerOf(t) == Cut(e, t.core.jhead) && m in t.disks
    ensures MemberOk(t, t.disks[m])
  {
    var i :| 0 <= i < |imgs| && members[i] == m && t.disks[m] == Disk(imgs[i], map[]);
    assert RingFits(e) && e.acked <= t.core.jhead <= |e.hist|;
    hide Load, PerOf, BasedOn, Stored, PerOk, Recovered, NoRecord, Issued, HasHdr;
    CutStored(e, imgs, t.core.jhead);
    QuietSafe(Cut(e, t.core.jhead), t.disks[m]);
  }

  // ---- every run ------------------------------------------------------------------------------------------------

  lemma NextKeeps(s: Sys, mv: Move, t: Sys)
    requires Inv(s) && Next(s, mv, t)
    ensures Inv(t)
  {
    match mv {
      case Done(act, lost) => DoneKeeps(s, act, lost, t);
      case PowerCut(act, n, members, imgs) =>
        hide Inv, CanCut, Reloaded;
        CutKeeps(s, act, n, members, imgs, t);
    }
  }

  /** mdadm's header and nothing else */
  function Blank(pct: nat): Image {
    map[HdrAt(0) := Good(0, Hdr(pct, 0, 0, 0, 0, 0, 0))]
  }

  /** a new array of R rows, assembled for the first time */
  ghost predicate Made(R: nat, pct: nat, s: Sys) {
    && 1 <= pct <= 90 && 0 < InitOrigin(R, pct) < R
    && s.disks != map[] && (forall m :: m in s.disks ==> s.disks[m] == Disk(Blank(pct), map[]))
    && Load(R, [Blank(pct)]) == Ok(s.core) && s.hist == [] && s.acked == 0
  }

  ghost function MadePer(R: nat, pct: nat): Per
    requires pct <= 100
  {
    Per(pct, 0, 0, Fresh(R, InitOrigin(R, pct)), seq(RmapPages(R), _ => Untouched), [], 0)
  }

  lemma FreshAtRest(R: nat, O: nat)
    requires 0 < O < R
    ensures AtRest(Fresh(R, O))
  {
    assert forall P :: Owner(Fresh(R, O), P) == Default(O, P);
  }

  lemma MadePerOk(R: nat, pct: nat)
    requires 1 <= pct <= 90 && 0 < InitOrigin(R, pct) < R
    ensures PerOk(MadePer(R, pct)) && Stored(MadePer(R, pct), Blank(pct)) && HasHdr(MadePer(R, pct), Blank(pct))
  {
    FreshAtRest(R, InitOrigin(R, pct));
    hide AtRest, RmapPages, InitOrigin;
    assert MadePer(R, pct).hist[0..] == [];
  }

  /** The first load of a new array succeeds, with no snapshot and an empty journal, so every
      array that mdadm may create has a run. */
  lemma FirstLoad(R: nat, pct: nat, members: set<nat>) returns (s: Sys)
    requires 1 <= pct <= 90 && 0 < InitOrigin(R, pct) < R && members != {}
    ensures Made(R, pct, s) && s.disks.Keys == members
    ensures s.core.st == Fresh(R, InitOrigin(R, pct)) && s.core.jhead == 0
    ensures var O := s.core.st.O; s.core.st.R == R && (R - O) * 100 >= R * pct > (R - O - 1) * 100
  {
    hide *;
    OriginShare(R, pct, InitOrigin(R, pct));
    OriginShare(R, pct, InitOrigin(R, pct) + 1);
    FreshSize(R, InitOrigin(R, pct));
    var core := BlankLoads(R, pct);
    s := Sys(core, map m | m in members :: Disk(Blank(pct), map[]), [], 0);
    var m :| m in members;
    assert m in s.disks;
    MadeHolds(R, pct, s);
  }

  lemma FreshSize(R: nat, O: nat)
    ensures Fresh(R, O).R == R && Fresh(R, O).O == O
  {
  }

  lemma BlankLoads(R: nat, pct: nat) returns (core: Core)
    requires 1 <= pct <= 90 && 0 < InitOrigin(R, pct) < R
    ensures Load(R, [Blank(pct)]) == Ok(core)
    ensures core.st == Fresh(R, InitOrigin(R, pct)) && core.jhead == 0
  {
    var per, imgs := MadePer(R, pct), [Blank(pct)];
    MadePerOk(R, pct);
    MadeBase(R, pct);
    hide PerOk, Stored, HasHdr, Load, Recovered, MadePer, Blank, InitOrigin, Fresh;
    assert AllStored(per, imgs) && HasHdr(per, imgs[0]);
    LoadRecovers(per, imgs, 0);
    core := Load(R, imgs).value;
    MadeCore(R, pct, per, core);
  }

  lemma MadeHolds(R: nat, pct: nat, s: Sys)
    requires 1 <= pct <= 90 && 0 < InitOrigin(R, pct) < R
    requires s.disks != map[] && forall m :: m in s.disks ==> s.disks[m] == Disk(Blank(pct), map[])
    requires Load(R, [Blank(pct)]) == Ok(s.core) && s.hist == [] && s.acked == 0
    ensures Made(R, pct, s)
  {
    hide Load, Blank, InitOrigin;
  }

  lemma MadeCore(R: nat, pct: nat, per: Per, core: Core)
    requires pct <= 100 && per == MadePer(R, pct) && PerOk(per) && Recovered(per, core)
    ensures core.st == Fresh(R, InitOrigin(R, pct)) && core.jhead == 0
  {
    assert per.hist[0..0] == [];
    hide PerOk, Fresh, InitOrigin, AtRest, DirtyCovers;
  }

  /** There the run begins: the state the first load gives is the region's history so far. */
  lemma MadeInv(R: nat, pct: nat, s: Sys)
    requires Made(R, pct, s)
    ensures Inv(s)
  {
    var per, imgs := MadePer(R, pct), [Blank(pct)];
    MadePerOk(R, pct);
    hide PerOk, Stored, HasHdr, Load, Recovered, MadePer, Blank;
    assert AllStored(per, imgs);
    assert HasHdr(per, imgs[0]);
    MadeBase(R, pct);
    LoadRecovers(per, imgs, 0);
    CutInCore(per, s.core);
    MadeIs(R, pct, s);
    hide AllStored, InCore, PerOf, BasedOn;
    forall m | m in s.disks ensures MemberOk(s, s.disks[m]) {
      QuietSafe(per, s.disks[m]);
    }
    InvFrom(s);
  }

  lemma MadeBase(R: nat, pct: nat)
    requires pct <= 100
    ensures MadePer(R, pct).base.R == R
  {
  }

  lemma MadeIs(R: nat, pct: nat, s: Sys)
    requires pct <= 100 && PerOk(MadePer(R, pct)) && Recovered(MadePer(R, pct), s.core) && s.hist == [] && s.acked == 0
    ensures BasedOn(s) && PerOf(s) == MadePer(R, pct) && Cut(MadePer(R, pct), s.core.jhead) == MadePer(R, pct)
    ensures s.core.scrub
  {
    assert s.hist[..0] == [];
    hide DirtyCovers, AtRest, PmapFits, Fresh;
  }

  lemma {:induction false} RunKeeps(s: Sys, moves: seq<Move>, t: Sys)
    requires Inv(s) && Reaches(s, moves, t)
    ensures Inv(t)
    decreases |moves|
  {
    hide Inv, Next;
    if moves != [] {
      var u: Sys :| Next(s, moves[0], u) && Reaches(u, moves[1..], t);
      NextKeeps(s, moves[0], u);
      RunKeeps(u, moves[1..], t);
    }
  }

  /** Every run of an array, through any number of power cuts, keeps the running state equal to
      all the records so far, applied in commit order; and from every state of it a power cut
      recovers. */
  lemma EveryRun(R: nat, pct: nat, s: Sys, moves: seq<Move>, t: Sys)
    requires Made(R, pct, s) && Reaches(s, moves, t)
    ensures StateIs(t.core.st, t.hist) && Coherent(t.core.st)
    ensures forall act, n: nat, members, imgs :: CanCut(t, act, n, members, imgs) ==>
      Load(t.core.st.R, imgs).Ok?
      && t.acked <= Load(t.core.st.R, imgs).value.jhead <= |Issued(t, act)|
      && StateIs(Load(t.core.st.R, imgs).value.st, Issued(t, act)[..Load(t.core.st.R, imgs).value.jhead])
  {
    hide Made, Reaches, Load, Next, CanCut;
    MadeInv(R, pct, s);
    RunKeeps(s, moves, t);
    InvState(t);
    hide StateIs;
    forall act, n: nat, members, imgs | CanCut(t, act, n, members, imgs)
      ensures Load(t.core.st.R, imgs).Ok?
        && t.acked <= Load(t.core.st.R, imgs).value.jhead <= |Issued(t, act)|
        && StateIs(Load(t.core.st.R, imgs).value.st, Issued(t, act)[..Load(t.core.st.R, imgs).value.jhead])
    {
      hide Inv, Issued;
      CutRecovers(t, act, n, members, imgs);
    }
  }

  /** every acknowledged record of s is one of t, in the same place */
  ghost predicate Keeps(s: Sys, t: Sys) {
    s.acked <= t.acked && s.acked <= |s.hist| && s.acked <= |t.hist| && s.hist[..s.acked] == t.hist[..s.acked]
  }

  lemma KeepsTransitive(s: Sys, u: Sys, t: Sys)
    requires Keeps(s, u) && Keeps(u, t)
    ensures Keeps(s, t)
  {
    assert u.hist[..s.acked] == u.hist[..u.acked][..s.acked];
    assert t.hist[..s.acked] == t.hist[..u.acked][..s.acked];
  }

  lemma AckedInRange(s: Sys)
    requires Inv(s)
    ensures s.acked <= |s.hist|
  {
    assert RingFits(PerOf(s));
  }

  lemma DoneKeepsAcked(s: Sys, act: Act, t: Sys)
    requires s.acked <= |s.hist| && Completed(s, act, t)
    ensures Keeps(s, t)
  {
    hide After, Allowed;
  }

  lemma CutKeepsAcked(s: Sys, act: Act, n: nat, members: seq<nat>, imgs: seq<Image>, t: Sys)
    requires Inv(s) && CanCut(s, act, n, members, imgs) && Reloaded(s, act, members, imgs, t)
    ensures Keeps(s, t)
  {
    AckedInRange(s);
    CutRecovers(s, act, n, members, imgs);
    hide Inv, CanCut, Load, StateIs;
  }

  lemma NextKeepsAcked(s: Sys, mv: Move, t: Sys)
    requires Inv(s) && Next(s, mv, t)
    ensures Keeps(s, t)
  {
    AckedInRange(s);
    hide Inv, Completed, Reloaded, CanCut, Keeps, Events, DoAll;
    match mv {
      case Done(act, _) => DoneKeepsAcked(s, act, t);
      case PowerCut(act, n, members, imgs) => CutKeepsAcked(s, act, n, members, imgs, t);
    }
  }

  /** What was ever acknowledged stays in the history, in its place. */
  lemma {:induction false} AcknowledgedStays(s: Sys, moves: seq<Move>, t: Sys)
    requires Inv(s) && Reaches(s, moves, t)
    ensures Keeps(s, t)
    decreases |moves|
  {
    AckedInRange(s);
    if moves != [] {
      var u: Sys :| Next(s, moves[0], u) && Reaches(u, moves[1..], t);
      hide Inv, Next, Reaches, Keeps;
      NextKeeps(s, moves[0], u);
      NextKeepsAcked(s, moves[0], u);
      AcknowledgedStays(u, moves[1..], t);
      KeepsTransitive(s, u, t);
    }
  }
}
