/** Which members a crash recovery needs.  A member with the newest header is enough, there
    is one as long as the last of them is not lost, and where every member has the newest
    header any one of them will do. */
module SnapHolders {
  import opened SnapState
  import opened SnapDerive
  import opened SnapRegion
  import opened SnapLoad
  import opened SnapStored
  import opened SnapReplay
  import opened SnapRecover
  import opened SnapCheckpoint
  import opened SnapCommit
  import opened SnapRun

  // ---- headers through the acts ------------------------------------------------------------------

  lemma HasHdrIsNew(per: Per, core: Core, img: Image)
    requires HasHdr(per, img) && core.ckpt == per.ckpt
    ensures NewHeader(core, img)
  {
    assert HeaderAt(img, per.ckpt % 2, core.ckpt);
  }

  lemma NoHeaderWrites(s: Sys, act: Act, i: nat)
    requires Inv(s) && Allowed(s.core, act) && i < |Events(s.core, act)| && !act.Checkpoint?
    ensures Events(s.core, act)[i].Write? ==> Events(s.core, act)[i].a.JrnlAt?
  {
    match act {
      case Commit(recs, data) =>
        if !data {
          RingEventsAre(s.core.jhead, RecordPages(s.core.jhead, recs), i);
        } else if i > 0 {
          RingEventsAre(s.core.jhead, RecordPages(s.core.jhead, recs), i - 1);
        }
        hide RingEvents, Inv, CanCommit;
      case Scrub =>
        RingEventsAre(s.core.jhead, NoPages(), i);
        hide RingEvents, Inv;
      case Reserve(_) =>
    }
  }

  lemma HeaderKept(s: Sys, act: Act, d: Disk, n: nat)
    requires Inv(s) && Allowed(s.core, act) && n <= |Events(s.core, act)| && KeepsHdr(PerOf(s), d)
    ensures KeepsHdr(PerOf(s), DoAll(d, Events(s.core, act)[..n]))
  {
    if act.Checkpoint? {
      hide Inv, PerOf, BasedOn, KeepsHdr, CheckpointEvents, InCore, Allowed;
      assert InCore(s.core, PerOf(s)) by { InvInCore(s); }
      OldHeaderStays(s.core, PerOf(s), act.full, d, n);
    } else {
      var evs := Events(s.core, act)[..n];
      forall i | 0 <= i < |evs| && evs[i].Write? ensures evs[i].a.JrnlAt? {
        hide Events;
        NoHeaderWrites(s, act, i);
      }
      hide Inv, PerOf, Events, KeepsHdr, Allowed;
      KeepsHdrAll(PerOf(s), d, evs);
    }
  }

  lemma InvInCore(s: Sys)
    requires Inv(s)
    ensures BasedOn(s) && InCore(s.core, PerOf(s)) && s.core.ckpt == PerOf(s).ckpt && UsedCovers(s.core.st)
  {
  }

  lemma SameHeader(per: Per, other: Per, d: Disk)
    requires KeepsHdr(per, d)
    requires other.ckpt == per.ckpt && other.jtail == per.jtail && other.base == per.base && other.pct == per.pct
    ensures KeepsHdr(other, d)
  {
    forall img: Image | IsImage(d, img) ensures HasHdr(other, img) {
      assert HasHdr(per, img);
    }
  }

  lemma CheckpointHolds(s: Sys, full: bool, d: Disk, t: Sys, m: nat)
    requires Inv(s) && Completed(s, Checkpoint(full), t) && m in s.disks && d == s.disks[m]
    ensures BasedOn(t) && KeepsHdr(PerOf(t), DoAll(d, Events(s.core, Checkpoint(full))))
  {
    DoneInCore(s, Checkpoint(full), t);
    assert MemberOk(s, d) && InCore(s.core, PerOf(s));
    hide Inv, InCore, Completed, Safe, KeepsHdr, PerOf, BasedOn, CheckpointEvents;
    CheckpointDone(s.core, PerOf(s), full, d);
  }

  lemma OtherHolds(s: Sys, act: Act, d: Disk, t: Sys)
    requires Inv(s) && Completed(s, act, t) && !act.Checkpoint? && KeepsHdr(PerOf(s), d)
    ensures BasedOn(t) && KeepsHdr(PerOf(t), DoAll(d, Events(s.core, act)))
  {
    var evs := Events(s.core, act);
    DoneInCore(s, act, t);
    assert evs[..|evs|] == evs;
    HeaderKept(s, act, d, |evs|);
    hide Inv, KeepsHdr, Events, PerOf, BasedOn, After, Allowed;
    SameHeader(PerOf(s), PerOf(t), DoAll(d, evs));
  }

  // ---- some member has the newest header -------------------------------------------------------

  ghost predicate Holder(s: Sys, m: nat) {
    BasedOn(s) && m in s.disks && KeepsHdr(PerOf(s), s.disks[m])
  }

  ghost predicate SomeHolds(s: Sys) {
    exists m :: Holder(s, m)
  }

  ghost predicate HolderBack(s: Sys, members: seq<nat>) {
    exists i :: 0 <= i < |members| && Holder(s, members[i])
  }

  ghost predicate AllBack(s: Sys, members: seq<nat>) {
    forall m :: m in s.disks ==> exists i :: 0 <= i < |members| && members[i] == m
  }

  lemma AllBackHolds(s: Sys, members: seq<nat>)
    requires SomeHolds(s) && AllBack(s, members)
    ensures HolderBack(s, members)
  {
    hide BasedOn, PerOf, KeepsHdr;
    var m :| Holder(s, m);
    var i :| 0 <= i < |members| && members[i] == m;
    assert Holder(s, members[i]);
  }

  /** A holder among the members that come back is all a crash recovery needs. */
  lemma HolderCuts(s: Sys, act: Act, n: nat, members: seq<nat>, imgs: seq<Image>)
    requires Inv(s) && Back(s, act, n, members, imgs) && HolderBack(s, members)
    ensures CanCut(s, act, n, members, imgs)
  {
    var i :| 0 <= i < |members| && Holder(s, members[i]);
    BackImage(s, act, n, members, imgs, i);
    hide Inv, Events, PerOf, BasedOn, KeepsHdr, Holder, HolderBack, Back, NewHeader;
    HolderImage(s, act, n, members[i], imgs[i]);
  }

  lemma BackImage(s: Sys, act: Act, n: nat, members: seq<nat>, imgs: seq<Image>, i: nat)
    requires Back(s, act, n, members, imgs) && i < |members|
    ensures |members| == |imgs| && members[i] in s.disks && Allowed(s.core, act) && n <= |Events(s.core, act)|
    ensures IsImage(DoAll(s.disks[members[i]], Events(s.core, act)[..n]), imgs[i])
  {
    hide Allowed, Events, IsImage, DoAll;
  }

  lemma HolderImage(s: Sys, act: Act, n: nat, m: nat, img: Image)
    requires Inv(s) && Holder(s, m) && Allowed(s.core, act) && n <= |Events(s.core, act)|
    requires IsImage(DoAll(s.disks[m], Events(s.core, act)[..n]), img)
    ensures HasHdr(PerOf(s), img) && NewHeader(s.core, img)
  {
    InvInCore(s);
    hide Inv, InCore, Events, Allowed, PerOf, BasedOn, IsImage, KeepsHdr, HasHdr, NewHeader;
    HeaderKept(s, act, s.disks[m], n);
    SafeImage(PerOf(s), DoAll(s.disks[m], Events(s.core, act)[..n]), img);
    HasHdrIsNew(PerOf(s), s.core, img);
  }

  /** a quiet member keeps what it has */
  lemma QuietHeader(per: Per, img: Image)
    requires HasHdr(per, img)
    ensures KeepsHdr(per, Disk(img, map[]))
  {
    hide HdrBody;
    forall x: Image | IsImage(Disk(img, map[]), x) ensures HasHdr(per, x) {
      assert Possible(Disk(img, map[]), HdrAt(per.ckpt % 2), Rd(x, HdrAt(per.ckpt % 2)));
    }
  }

  lemma MadeHolds(R: nat, pct: nat, s: Sys)
    requires Made(R, pct, s)
    ensures SomeHolds(s)
  {
    MadeIsBased(R, pct, s);
    MadePerOk(R, pct);
    var m :| m in s.disks;
    assert s.disks[m] == Disk(Blank(pct), map[]);
    QuietHeader(MadePer(R, pct), Blank(pct));
    hide PerOf, BasedOn, KeepsHdr, MadePer, Load;
    assert Holder(s, m);
  }

  lemma MadeIsBased(R: nat, pct: nat, s: Sys)
    requires Made(R, pct, s)
    ensures BasedOn(s) && pct <= 100 && PerOf(s) == MadePer(R, pct)
  {
    MadePerOk(R, pct);
    MadeBase(R, pct);
    hide PerOk, Stored, HasHdr, Load, Recovered, MadePer, Blank;
    assert AllStored(MadePer(R, pct), [Blank(pct)]);
    assert HasHdr(MadePer(R, pct), [Blank(pct)][0]);
    LoadRecovers(MadePer(R, pct), [Blank(pct)], 0);
    MadeIs(R, pct, s);
  }

  /** The load after a power cut leaves a holder: the member whose header was elected. */
  lemma CutHolds(s: Sys, act: Act, n: nat, members: seq<nat>, imgs: seq<Image>, t: Sys)
    requires Inv(s) && CanCut(s, act, n, members, imgs) && Reloaded(s, act, members, imgs, t)
    requires forall i :: 0 <= i < |members| ==> members[i] in t.disks
    ensures SomeHolds(t)
  {
    hide *;
    CutParts(s, act, n, members, imgs);
    var e := CutElects(s, act, n, members, imgs);
    ElectedLoads(s, act, imgs, e);
    ReloadedCore(s, act, members, imgs, t);
    ReloadedPer(s, act, members, imgs, t, e);
    ElectableOk(s, act, e);
    RecoveredHead(e, t.core);
    var k := ElectedOne(e, imgs);
    CutHeader(e, t.core.jhead, imgs[k]);
    ReloadedDisk(s, act, members, imgs, t, k);
    QuietHeader(PerOf(t), imgs[k]);
    HolderFrom(t, members[k]);
  }

  lemma CutParts(s: Sys, act: Act, n: nat, members: seq<nat>, imgs: seq<Image>)
    requires CanCut(s, act, n, members, imgs)
    ensures |members| == |imgs| && forall i, j :: 0 <= i < j < |members| ==> members[i] != members[j]
  {
    hide Allowed, Events, IsImage, DoAll, NewHeader;
  }

  lemma ElectedOne(e: Per, imgs: seq<Image>) returns (k: nat)
    requires Elected(e, imgs)
    ensures k < |imgs| && HasHdr(e, imgs[k])
  {
    hide AllStored, HasHdr;
    k :| k < |imgs| && HasHdr(e, imgs[k]);
  }

  lemma HolderFrom(s: Sys, m: nat)
    requires BasedOn(s) && m in s.disks && KeepsHdr(PerOf(s), s.disks[m])
    ensures Holder(s, m) && SomeHolds(s)
  {
    hide BasedOn, PerOf, KeepsHdr;
    assert Holder(s, m);
  }

  lemma RecoveredHead(e: Per, core: Core)
    requires PerOk(e) && Recovered(e, core)
    ensures core.jhead <= |e.hist|
  {
    hide PerOk, RecsOk, ApplyRecs, AtRest, DirtyCovers;
  }

  lemma CutHeader(e: Per, j: nat, img: Image)
    requires j <= |e.hist| && HasHdr(e, img)
    ensures HasHdr(Cut(e, j), img)
  {
  }

  lemma ReloadedDisk(s: Sys, act: Act, members: seq<nat>, imgs: seq<Image>, t: Sys, k: nat)
    requires |members| == |imgs| && Reloaded(s, act, members, imgs, t) && k < |members| && members[k] in t.disks
    requires forall i, j :: 0 <= i < j < |members| ==> members[i] != members[j]
    ensures t.disks[members[k]] == Disk(imgs[k], map[])
  {
    hide Load, Issued;
    var i :| 0 <= i < |imgs| && members[i] == members[k] && t.disks[members[k]] == Disk(imgs[i], map[]);
    assert i == k;
  }

  /** A completed act leaves one while a holder stays; a completed checkpoint makes one of
      every member that does. */
  lemma DoneHeld(s: Sys, act: Act, lost: set<nat>, t: Sys, m: nat)
    requires Inv(s) && Next(s, Done(act, lost), t) && m in t.disks && (act.Checkpoint? || Holder(s, m))
    ensures Holder(t, m)
  {
    assert m in s.disks && t.disks[m] == DoAll(s.disks[m], Events(s.core, act));
    hide Inv, PerOf, BasedOn, Completed, KeepsHdr, Events, DoAll;
    match act {
      case Checkpoint(full) => CheckpointHolds(s, full, s.disks[m], t, m);
      case _ => OtherHolds(s, act, s.disks[m], t);
    }
  }

  // ---- runs that never lose the last holder ------------------------------------------------------

  /** A move that keeps a holder; and one that keeps every member. */
  ghost predicate Step(whole: bool, s: Sys, mv: Move, t: Sys) {
    match mv
    case Done(act, lost) =>
      Next(s, mv, t)
      && (if whole then lost !! s.disks.Keys
          else if act.Checkpoint? then t.disks != map[] else exists m :: m in t.disks && Holder(s, m))
    case PowerCut(act, n, members, imgs) =>
      Back(s, act, n, members, imgs) && Reloaded(s, act, members, imgs, t)
      && (if whole then AllBack(s, members) else HolderBack(s, members))
      && forall i :: 0 <= i < |members| ==> members[i] in t.disks
  }

  ghost predicate Holding(whole: bool, s: Sys, moves: seq<Move>, t: Sys)
    decreases |moves|
  {
    if moves == [] then s == t
    else exists u: Sys :: Step(whole, s, moves[0], u) && Holding(whole, u, moves[1..], t)
  }

  lemma DoneKeepsHolder(whole: bool, s: Sys, act: Act, lost: set<nat>, t: Sys)
    requires Inv(s) && SomeHolds(s) && Step(whole, s, Done(act, lost), t)
    ensures SomeHolds(t)
  {
    hide Inv, Completed, Holder, Events, DoAll;
    var m :| m in t.disks && (act.Checkpoint? || Holder(s, m)) by {
      if whole {
        var h :| Holder(s, h);
        assert h in t.disks by { HolderIn(s, h); }
      }
    }
    DoneHeld(s, act, lost, t, m);
  }

  lemma HolderIn(s: Sys, m: nat)
    requires Holder(s, m)
    ensures m in s.disks
  {
  }

  /** Such a move is one of the machine's, power cuts included, and leaves a holder. */
  lemma StepHolds(whole: bool, s: Sys, mv: Move, t: Sys)
    requires Inv(s) && SomeHolds(s) && Step(whole, s, mv, t)
    ensures Next(s, mv, t) && Inv(t) && SomeHolds(t)
  {
    match mv {
      case Done(act, lost) =>
        DoneKeepsHolder(whole, s, act, lost, t);
        hide Inv, SomeHolds;
        NextKeeps(s, mv, t);
      case PowerCut(act, n, members, imgs) =>
        hide Inv, SomeHolds, Back, Reloaded, AllBack, HolderBack, CanCut;
        if whole {
          AllBackHolds(s, members);
        }
        HolderCuts(s, act, n, members, imgs);
        CutHolds(s, act, n, members, imgs, t);
        NextKeeps(s, mv, t);
    }
  }

  lemma {:induction false} HoldingKeeps(whole: bool, s: Sys, moves: seq<Move>, t: Sys)
    requires Inv(s) && SomeHolds(s) && Holding(whole, s, moves, t)
    ensures Inv(t) && SomeHolds(t) && Reaches(s, moves, t)
    decreases |moves|
  {
    hide Inv, SomeHolds, Step, Next;
    if moves != [] {
      var u: Sys :| Step(whole, s, moves[0], u) && Holding(whole, u, moves[1..], t);
      StepHolds(whole, s, moves[0], u);
      HoldingKeeps(whole, u, moves[1..], t);
    }
  }

  /** Every run of an array that never loses the last holder of the newest header -- one
      that loses no member at all, for one -- has a holder after every move, and recovers
      from a power cut at any point of it with a holder, or with every member, back. */
  lemma HoldingRecovers(whole: bool, R: nat, pct: nat, s: Sys, moves: seq<Move>, t: Sys)
    requires Made(R, pct, s) && Holding(whole, s, moves, t)
    ensures SomeHolds(t) && StateIs(t.core.st, t.hist) && Coherent(t.core.st)
    ensures forall act, n: nat, members, imgs ::
      Back(t, act, n, members, imgs) && (HolderBack(t, members) || AllBack(t, members)) ==>
        Load(t.core.st.R, imgs).Ok?
        && t.acked <= Load(t.core.st.R, imgs).value.jhead <= |Issued(t, act)|
        && StateIs(Load(t.core.st.R, imgs).value.st, Issued(t, act)[..Load(t.core.st.R, imgs).value.jhead])
  {
    hide *;
    MadeInv(R, pct, s);
    MadeHolds(R, pct, s);
    HoldingKeeps(whole, s, moves, t);
    EveryRun(R, pct, s, moves, t);
    forall act, n: nat, members, imgs
      | Back(t, act, n, members, imgs) && (HolderBack(t, members) || AllBack(t, members))
      ensures CanCut(t, act, n, members, imgs)
    {
      if AllBack(t, members) {
        AllBackHolds(t, members);
      }
      HolderCuts(t, act, n, members, imgs);
    }
  }

  // ---- every member has the newest header ----------------------------------------------------

  ghost predicate AllHold(s: Sys) {
    forall m :: m in s.disks ==> Holder(s, m)
  }

  lemma OneBack(s: Sys, act: Act, n: nat, m: nat, img: Image)
    requires Allowed(s.core, act) && n <= |Events(s.core, act)| && m in s.disks
    requires IsImage(DoAll(s.disks[m], Events(s.core, act)[..n]), img)
    ensures Back(s, act, n, [m], [img])
  {
    hide Allowed, Events, IsImage, DoAll;
  }

  lemma OneHolder(s: Sys, m: nat)
    ensures HolderBack(s, [m]) <==> Holder(s, m)
  {
    hide Holder;
    assert [m][0] == m;
  }

  /** Any one member is enough while all of them hold the newest header. */
  lemma AnyMemberSuffices(s: Sys, act: Act, n: nat, m: nat, img: Image)
    requires Inv(s) && AllHold(s) && Allowed(s.core, act) && n <= |Events(s.core, act)| && m in s.disks
    requires IsImage(DoAll(s.disks[m], Events(s.core, act)[..n]), img)
    ensures CanCut(s, act, n, [m], [img])
  {
    assert Holder(s, m);
    hide *;
    OneBack(s, act, n, m, img);
    OneHolder(s, m);
    HolderCuts(s, act, n, [m], [img]);
  }

  /** Completed acts keep that, and a completed checkpoint brings it about. */
  lemma DoneHolds(s: Sys, act: Act, lost: set<nat>, t: Sys)
    requires Inv(s) && Next(s, Done(act, lost), t) && (AllHold(s) || act.Checkpoint?)
    ensures Inv(t) && AllHold(t)
  {
    hide Inv, Holder, Completed, Events, DoAll;
    DoneKeeps(s, act, lost, t);
    forall m | m in t.disks ensures Holder(t, m) {
      DoneHeld(s, act, lost, t, m);
    }
  }
}
