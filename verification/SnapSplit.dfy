/** Which members a crash recovery needs, exactly.  Where a power cut left a new header on one
    member only, losing that member during the next checkpoint leaves regions that do not load;
    and the members that come back recover from every power cut if and only if one of them
    keeps the newest header. */
module SnapSplit {
  import opened SnapState
  import opened SnapDerive
  import opened SnapRegion
  import opened SnapLoad
  import opened SnapStored
  import opened SnapReplay
  import opened SnapRecover
  import opened SnapCheckpoint
  import opened SnapCommit
  import opened SnapRun
  import opened SnapHolders

  // ---- header pages are durable between acts ---------------------------------------------------

  predicate HdrsDurable(d: Disk) {
    HdrAt(0) !in d.may && HdrAt(1) !in d.may
  }

  ghost predicate AllDurable(s: Sys) {
    forall m :: m in s.disks ==> HdrsDurable(s.disks[m])
  }

  lemma {:induction false} NoHdrWritten(d: Disk, evs: seq<Ev>)
    requires HdrsDurable(d) && forall i :: 0 <= i < |evs| && evs[i].Write? ==> evs[i].a.JrnlAt?
    ensures HdrsDurable(DoAll(d, evs))
  {
    if evs != [] {
      NoHdrWritten(d, evs[..|evs| - 1]);
    }
  }

  lemma CheckpointDurable(core: Core, full: bool, d: Disk)
    ensures HdrsDurable(DoAll(d, CheckpointEvents(core, full)))
  {
    var body, hdr := BodyEvents(core, full), HdrEvents(core);
    assert body[|body| - 1] == Flush by { hide RmapWrites, PmapWrites, TblWrites, NextPmap, PmapPages; }
    hide BodyEvents;
    assert DoAll(d, body).may == map[];
    DoAllSplit(d, body, hdr);
    TwoEvents(DoAll(d, body), hdr);
  }

  lemma DoneDurable(s: Sys, act: Act, d: Disk)
    requires Inv(s) && Allowed(s.core, act) && HdrsDurable(d)
    ensures HdrsDurable(DoAll(d, Events(s.core, act)))
  {
    if act.Checkpoint? {
      CheckpointDurable(s.core, act.full, d);
    } else {
      var evs := Events(s.core, act);
      forall i | 0 <= i < |evs| && evs[i].Write? ensures evs[i].a.JrnlAt? {
        hide Inv, Events, Allowed;
        NoHeaderWrites(s, act, i);
      }
      hide Inv, Events, Allowed;
      NoHdrWritten(d, evs);
    }
  }

  lemma NextDurable(s: Sys, mv: Move, t: Sys)
    requires Inv(s) && AllDurable(s) && Next(s, mv, t)
    ensures AllDurable(t)
  {
    forall m | m in t.disks ensures HdrsDurable(t.disks[m]) {
      hide Inv, CanCut, Events, Allowed, HdrsDurable, DoAll, Load;
      match mv {
        case Done(act, _) =>
          assert Allowed(s.core, act) && m in s.disks && HdrsDurable(s.disks[m]);
          DoneDurable(s, act, s.disks[m]);
        case PowerCut(act, n, members, imgs) =>
          assert |members| == |imgs| by { CutParts(s, act, n, members, imgs); }
          NothingInFlight(s, act, members, imgs, t, m);
      }
    }
  }

  lemma NothingInFlight(s: Sys, act: Act, members: seq<nat>, imgs: seq<Image>, t: Sys, m: nat)
    requires |members| == |imgs| && Reloaded(s, act, members, imgs, t) && m in t.disks
    ensures HdrsDurable(t.disks[m])
  {
    hide Load, Issued;
  }

  lemma {:induction false} RunDurable(s: Sys, moves: seq<Move>, t: Sys)
    requires Inv(s) && AllDurable(s) && Reaches(s, moves, t)
    ensures Inv(t) && AllDurable(t)
    decreases |moves|
  {
    hide Inv, Next, AllDurable;
    if moves != [] {
      var u: Sys :| Next(s, moves[0], u) && Reaches(u, moves[1..], t);
      NextDurable(s, moves[0], u);
      NextKeeps(s, moves[0], u);
      RunDurable(u, moves[1..], t);
    }
  }

  // ---- a header older than every table copy does not load --------------------------------------

  predicate HasGen(img: Image, i: nat, g: nat) {
    Rd(img, HdrAt(i)).Good? && Rd(img, HdrAt(i)).gen == g
  }

  lemma LoadedHeader(imgs: seq<Image>)
    requires LoadHeader(imgs).Ok?
    ensures exists i: nat, k: nat :: i < 2 && k < |imgs| && HasGen(imgs[k], i, LoadHeader(imgs).value.ckpt)
  {
    var r0, r1 := Get(imgs, HdrAt(0), Newest), Get(imgs, HdrAt(1), Newest);
    var which := if r0.Found? && !(r1.Found? && r1.gen > r0.gen) then 0 else 1;
    var best := if which == 0 then r0.gen else r1.gen;
    GetFinds(imgs, HdrAt(which), Exactly(best));
    var r := Get(imgs, HdrAt(which), Exactly(best));
    hide Get;
    var k: nat :| k < |imgs| && Offers(imgs[k], HdrAt(which), Exactly(best), r.gen, r.body);
    assert HasGen(imgs[k], which, best);
  }

  lemma LoadedCkpt(R: nat, imgs: seq<Image>)
    requires Load(R, imgs).Ok?
    ensures LoadHeader(imgs).Ok? && Load(R, imgs).value.ckpt == LoadHeader(imgs).value.ckpt
  {
    hide LoadHeader, LoadTable, LoadPmap, LoadRmap, Derive, ReplayFrom, InitOrigin, RmapPages, PmapPages, ChainOf;
  }

  lemma {:induction false} TableGone(imgs: seq<Image>, c: nat, n: nat)
    requires n > 0
    requires forall k :: 0 <= k < |imgs| && Rd(imgs[k], TblAt(c % 2, 0)).Good? ==> Rd(imgs[k], TblAt(c % 2, 0)).gen != c
    ensures LoadTable(imgs, c, n) == Unclean
  {
    if n > 1 {
      TableGone(imgs, c, n - 1);
    } else {
      GetFinds(imgs, TblAt(c % 2, 0), Exactly(c));
    }
  }

  /** this member has only headers older than checkpoint c, whose tables are overwritten */
  ghost predicate Stale(img: Image, c: nat) {
    && (forall i: nat :: i < 2 && Rd(img, HdrAt(i)).Good? ==> 0 < Rd(img, HdrAt(i)).gen < c)
    && forall i: nat :: i < 2 && Rd(img, TblAt(i, 0)).Good? ==> Rd(img, TblAt(i, 0)).gen >= c
  }

  lemma StaleFails(R: nat, imgs: seq<Image>, c: nat)
    requires forall k :: 0 <= k < |imgs| ==> Stale(imgs[k], c)
    ensures Load(R, imgs) == Unclean
  {
    if LoadHeader(imgs).Ok? {
      LoadedHeader(imgs);
      var g := LoadHeader(imgs).value.ckpt;
      hide LoadHeader, Load;
      var i: nat, k: nat :| i < 2 && k < |imgs| && HasGen(imgs[k], i, g);
      assert Stale(imgs[k], c);
      forall k | 0 <= k < |imgs| && Rd(imgs[k], TblAt(g % 2, 0)).Good?
        ensures Rd(imgs[k], TblAt(g % 2, 0)).gen != g
      {
        assert Stale(imgs[k], c);
      }
      TableGone(imgs, g, TBL_PAGES);
      hide Stale, Rd, LoadTable;
      NoTableNoLoad(R, imgs);
    }
  }

  lemma NoTableNoLoad(R: nat, imgs: seq<Image>)
    requires LoadHeader(imgs).Ok? && LoadHeader(imgs).value.ckpt > 0
    requires LoadTable(imgs, LoadHeader(imgs).value.ckpt, TBL_PAGES) == Unclean
    ensures Load(R, imgs) == Unclean
  {
    hide LoadHeader, LoadTable, LoadPmap, LoadRmap, Derive, Finish, InitOrigin, RmapPages, PmapPages, ChainOf;
  }

  // ---- a member without the newest header ------------------------------------------------------

  /** a header that is not the newest is an older one */
  lemma LacksHeader(per: Per, d: Disk)
    requires Stored(per, d.cur) && HdrsDurable(d) && !KeepsHdr(per, d)
    ensures forall i: nat :: i < 2 && Rd(d.cur, HdrAt(i)).Good? ==> Rd(d.cur, HdrAt(i)).gen < per.ckpt
  {
    hide HdrBody, TblImg, PmapImg, RmapImg, AckedImg, RingImg, RingFits;
    var img: Image :| IsImage(d, img) && !HasHdr(per, img);
    var a := HdrAt(per.ckpt % 2);
    assert Possible(d, a, Rd(img, a));
    assert !HasHdr(per, d.cur);
    forall i: nat | i < 2 && Rd(d.cur, HdrAt(i)).Good?
      ensures Rd(d.cur, HdrAt(i)).gen < per.ckpt
    {
      assert HdrCopyOk(per, i, Rd(d.cur, HdrAt(i)));
    }
  }

  /** the region once a checkpoint's body is out */
  function Gone(core: Core, d: Disk): Image {
    DoAll(d, BodyEvents(core, false)).cur
  }

  /** The next checkpoint's body leaves no table that such a header could be loaded with. */
  lemma GoneStale(core: Core, per: Per, d: Disk)
    requires Stored(per, d.cur) && core.ckpt == per.ckpt
    requires forall i: nat :: i < 2 && Rd(d.cur, HdrAt(i)).Good? ==> 0 < Rd(d.cur, HdrAt(i)).gen < core.ckpt
    ensures Stale(Gone(core, d), core.ckpt)
  {
    forall a ensures Rd(Gone(core, d), a) == BodyPage(core, false, a, Rd(d.cur, a)) {
      LatestIsCurrent(d, BodyEvents(core, false), a);
      LatestBody(core, false, a, Rd(d.cur, a));
      hide *;
    }
    var c := core.ckpt;
    if c > 0 {
      assert Rd(d.cur, TblAt(c % 2, 0)).gen == c by {
        hide HdrImg, PmapImg, RmapImg, AckedImg, RingImg, RingFits, TblPage, Gone;
        assert Rd(d.cur, TblAt(c % 2, 0)) == Good(c, Tbl(TblPage(per.base.snaps, 0)));
      }
    }
    hide Gone, Stored, Rd, NextPmap, TblPage, RmapPage, PmapPage, Written;
    forall i: nat | i < 2
      ensures Rd(Gone(core, d), HdrAt(i)) == Rd(d.cur, HdrAt(i))
      ensures Rd(Gone(core, d), TblAt(i, 0)).Good? ==> Rd(Gone(core, d), TblAt(i, 0)).gen >= c
    {
      assert Rd(Gone(core, d), HdrAt(i)) == BodyPage(core, false, HdrAt(i), Rd(d.cur, HdrAt(i)));
      assert Rd(Gone(core, d), TblAt(i, 0)) == BodyPage(core, false, TblAt(i, 0), Rd(d.cur, TblAt(i, 0)));
    }
  }

  // ---- exactly which members are enough --------------------------------------------------------

  /** some of the members of the array, each once */
  ghost predicate Some(s: Sys, members: seq<nat>) {
    && (forall i :: 0 <= i < |members| ==> members[i] in s.disks)
    && forall i, j :: 0 <= i < j < |members| ==> members[i] != members[j]
  }

  /** none of them has mdadm's header any more, once there is a checkpoint */
  ghost predicate NoFirstHeader(s: Sys, members: seq<nat>) {
    s.core.ckpt > 0 ==>
      forall i, c: nat :: 0 <= i < |members| && members[i] in s.disks && c < 2 ==>
        !HasGen(s.disks[members[i]].cur, c, 0)
  }

  /** whatever a power cut leaves of them, they load */
  ghost predicate AlwaysLoad(s: Sys, members: seq<nat>) {
    forall act, n: nat, imgs :: Back(s, act, n, members, imgs) ==> Load(s.core.st.R, imgs).Ok?
  }

  /** ... a checkpoint no older than the running one */
  ghost predicate AlwaysNew(s: Sys, members: seq<nat>) {
    forall act, n: nat, imgs :: Back(s, act, n, members, imgs) ==>
      Load(s.core.st.R, imgs).Ok? && Load(s.core.st.R, imgs).value.ckpt >= s.core.ckpt
  }

  lemma HolderLoads(s: Sys, members: seq<nat>, act: Act, n: nat, imgs: seq<Image>)
    requires Inv(s) && HolderBack(s, members) && Back(s, act, n, members, imgs)
    ensures Load(s.core.st.R, imgs).Ok? && Load(s.core.st.R, imgs).value.ckpt >= s.core.ckpt
  {
    hide *;
    HolderCuts(s, act, n, members, imgs);
    var e := CutElects(s, act, n, members, imgs);
    ElectedLoads(s, act, imgs, e);
    ElectableOk(s, act, e);
    RecoveredCkpt(e, Load(s.core.st.R, imgs).value);
    ElectedIsNew(s, act, n, members, imgs, e);
  }

  lemma RecoveredCkpt(per: Per, core: Core)
    requires PerOk(per) && Recovered(per, core)
    ensures core.ckpt == per.ckpt
  {
    hide PerOk, AtRest, DirtyCovers;
  }

  lemma ElectedIsNew(s: Sys, act: Act, n: nat, members: seq<nat>, imgs: seq<Image>, e: Per)
    requires CanCut(s, act, n, members, imgs) && Elected(e, imgs)
    ensures s.core.ckpt <= e.ckpt
  {
    var k :| 0 <= k < |imgs| && NewHeader(s.core, imgs[k]);
    var i: nat :| i < 2 && HeaderAt(imgs[k], i, s.core.ckpt);
    hide CanCut, HdrBody, TblImg, PmapImg, RmapImg, AckedImg, RingImg, RingFits;
    assert Stored(e, imgs[k]);
    assert HdrCopyOk(e, i, Rd(imgs[k], HdrAt(i)));
  }

  lemma NotHolder(s: Sys, m: nat)
    requires Inv(s) && AllDurable(s) && m in s.disks && !Holder(s, m)
    ensures forall i: nat :: i < 2 && Rd(s.disks[m].cur, HdrAt(i)).Good? ==>
      Rd(s.disks[m].cur, HdrAt(i)).gen < s.core.ckpt
    ensures BasedOn(s) && Stored(PerOf(s), s.disks[m].cur) && s.core.ckpt == PerOf(s).ckpt
  {
    InvInCore(s);
    assert Safe(PerOf(s), s.disks[m]) by { assert MemberOk(s, s.disks[m]); }
    hide Inv, PerOf, BasedOn, InCore, HdrsDurable, KeepsHdr;
    OwnImage(s.disks[m]);
    hide Stored;
    LacksHeader(PerOf(s), s.disks[m]);
  }

  lemma NoneHolds(s: Sys, members: seq<nat>, i: nat)
    requires Some(s, members) && !HolderBack(s, members) && i < |members|
    ensures members[i] in s.disks && !Holder(s, members[i])
  {
    hide Holder;
  }

  /** with no holder among them a cut right now shows older headers only */
  lemma NoHolderOld(s: Sys, members: seq<nat>) returns (imgs: seq<Image>)
    requires Inv(s) && AllDurable(s) && Some(s, members) && !HolderBack(s, members)
    ensures Back(s, Reserve(s.core.st.used), 0, members, imgs)
    ensures Load(s.core.st.R, imgs).Ok? ==> Load(s.core.st.R, imgs).value.ckpt < s.core.ckpt
  {
    imgs := seq(|members|, i requires 0 <= i < |members| => s.disks[members[i]].cur);
    NowBack(s, members, imgs);
    if Load(s.core.st.R, imgs).Ok? {
      LoadedCkpt(s.core.st.R, imgs);
      LoadedHeader(imgs);
      hide Load, LoadHeader, Inv, AllDurable, Holder, HolderBack, Back;
      var i: nat, k: nat :| i < 2 && k < |imgs| && HasGen(imgs[k], i, LoadHeader(imgs).value.ckpt);
      NoneHolds(s, members, k);
      NotHolder(s, members[k]);
    }
  }

  lemma NowBack(s: Sys, members: seq<nat>, imgs: seq<Image>)
    requires Inv(s) && Some(s, members) && |imgs| == |members|
    requires forall i :: 0 <= i < |members| ==> imgs[i] == s.disks[members[i]].cur
    ensures Back(s, Reserve(s.core.st.used), 0, members, imgs)
  {
    InvInCore(s);
    assert s.core.st.(used := s.core.st.used) == s.core.st;
    hide Inv, InCore, UsedCovers;
  }

  /** and with a checkpoint's body out they do not load at all */
  lemma NoHolderFails(s: Sys, members: seq<nat>) returns (imgs: seq<Image>)
    requires Inv(s) && AllDurable(s) && Some(s, members) && !HolderBack(s, members) && NoFirstHeader(s, members)
    ensures Back(s, Checkpoint(false), |BodyEvents(s.core, false)|, members, imgs)
    ensures Load(s.core.st.R, imgs) == Unclean
  {
    imgs := seq(|members|, i requires 0 <= i < |members| => Gone(s.core, s.disks[members[i]]));
    BodyBack(s, members, imgs);
    hide Load, Inv, AllDurable, Holder, HolderBack, Back, Gone, Stale, Stored;
    forall k | 0 <= k < |imgs| ensures Stale(imgs[k], s.core.ckpt) {
      NoneHolds(s, members, k);
      StaleMember(s, members, k);
    }
    StaleFails(s.core.st.R, imgs, s.core.ckpt);
  }

  lemma StaleMember(s: Sys, members: seq<nat>, k: nat)
    requires Inv(s) && AllDurable(s) && NoFirstHeader(s, members)
    requires k < |members| && members[k] in s.disks && !Holder(s, members[k])
    ensures Stale(Gone(s.core, s.disks[members[k]]), s.core.ckpt)
  {
    var d := s.disks[members[k]];
    hide Inv, AllDurable, Holder, Stored, Gone, Stale, PerOf, BasedOn, Rd;
    NotHolder(s, members[k]);
    forall i: nat | i < 2 && Rd(d.cur, HdrAt(i)).Good? ensures 0 < Rd(d.cur, HdrAt(i)).gen {
      assert s.core.ckpt > 0;
      assert !HasGen(d.cur, i, 0);
    }
    hide NoFirstHeader;
    GoneStale(s.core, PerOf(s), d);
  }

  lemma BodyBack(s: Sys, members: seq<nat>, imgs: seq<Image>)
    requires Some(s, members) && |imgs| == |members|
    requires forall i :: 0 <= i < |members| ==> imgs[i] == Gone(s.core, s.disks[members[i]])
    ensures Back(s, Checkpoint(false), |BodyEvents(s.core, false)|, members, imgs)
  {
    var n := |BodyEvents(s.core, false)|;
    assert CheckpointEvents(s.core, false)[..n] == BodyEvents(s.core, false);
    hide BodyEvents, DoAll;
  }

  /** The members that come back recover from every power cut exactly when one of them keeps
      the newest header: without one, the next checkpoint can always be cut where nothing of
      theirs loads.  Before mdadm's header is written over they may load, but then it is an
      older checkpoint that loads. */
  lemma SurvivorsExactly(s: Sys, members: seq<nat>)
    requires Inv(s) && AllDurable(s) && Some(s, members)
    ensures HolderBack(s, members) <==> AlwaysNew(s, members)
    ensures NoFirstHeader(s, members) ==> (HolderBack(s, members) <==> AlwaysLoad(s, members))
  {
    hide Inv, AllDurable, Some, HolderBack, NoFirstHeader, Back, Load;
    if HolderBack(s, members) {
      forall act, n: nat, imgs | Back(s, act, n, members, imgs)
        ensures Load(s.core.st.R, imgs).Ok? && Load(s.core.st.R, imgs).value.ckpt >= s.core.ckpt
      {
        HolderLoads(s, members, act, n, imgs);
      }
    } else {
      var imgs := NoHolderOld(s, members);
      if NoFirstHeader(s, members) {
        var gone := NoHolderFails(s, members);
      }
    }
  }

  /** Every single member is enough exactly when all of them hold the newest header. */
  lemma AllHoldExactly(s: Sys)
    requires Inv(s) && AllDurable(s)
    ensures AllHold(s) <==> forall m :: m in s.disks ==> AlwaysNew(s, [m])
    ensures (forall m :: m in s.disks ==> NoFirstHeader(s, [m])) ==>
      (AllHold(s) <==> forall m :: m in s.disks ==> AlwaysLoad(s, [m]))
  {
    hide Inv, AllDurable, NoFirstHeader, AlwaysLoad, AlwaysNew, Holder, HolderBack;
    forall m | m in s.disks
      ensures Some(s, [m])
      ensures Holder(s, m) <==> AlwaysNew(s, [m])
      ensures NoFirstHeader(s, [m]) ==> (Holder(s, m) <==> AlwaysLoad(s, [m]))
    {
      OneHolder(s, m);
      SurvivorsExactly(s, [m]);
    }
  }

  lemma MadeDurable(R: nat, pct: nat, s: Sys)
    requires Made(R, pct, s)
    ensures AllDurable(s)
  {
    hide Load, Blank;
  }

  /** So it is in every run of an array whose power cuts leave the newest header on some member. */
  lemma EveryRunExactly(R: nat, pct: nat, s: Sys, moves: seq<Move>, t: Sys, members: seq<nat>)
    requires Made(R, pct, s) && Reaches(s, moves, t) && Some(t, members)
    ensures HolderBack(t, members) <==> AlwaysNew(t, members)
    ensures NoFirstHeader(t, members) ==> (HolderBack(t, members) <==> AlwaysLoad(t, members))
  {
    hide *;
    MadeInv(R, pct, s);
    MadeDurable(R, pct, s);
    RunDurable(s, moves, t);
    SurvivorsExactly(t, members);
  }

  // ---- and how one member alone comes to have it -----------------------------------------------

  lemma CutAtHeader(s: Sys, full: bool, d: Disk)
    ensures |BodyEvents(s.core, full)| + 1 <= |CheckpointEvents(s.core, full)|
    ensures DoAll(d, CheckpointEvents(s.core, full)[..|BodyEvents(s.core, full)| + 1]) ==
      Do(DoAll(d, BodyEvents(s.core, full)), HdrEvents(s.core)[0])
  {
    var n := |BodyEvents(s.core, full)| + 1;
    var evs := CheckpointEvents(s.core, full)[..n];
    assert evs[..n - 1] == BodyEvents(s.core, full) && evs[n - 1] == HdrEvents(s.core)[0];
    hide BodyEvents;
  }

  /** the header landed, and torn */
  lemma SplitImages(s: Sys, full: bool, d: Disk) returns (landed: Image, torn: Image)
    requires Inv(s)
    ensures |BodyEvents(s.core, full)| + 1 <= |CheckpointEvents(s.core, full)|
    ensures IsImage(DoAll(d, CheckpointEvents(s.core, full)[..|BodyEvents(s.core, full)| + 1]), landed)
    ensures IsImage(DoAll(d, CheckpointEvents(s.core, full)[..|BodyEvents(s.core, full)| + 1]), torn)
    ensures HasHdr(NextPer(s.core, PerOf(s), full), landed)
    ensures Rd(torn, HdrAt((s.core.ckpt + 1) % 2)) == Bad
  {
    CutAtHeader(s, full, d);
    var e := DoAll(d, CheckpointEvents(s.core, full)[..|BodyEvents(s.core, full)| + 1]);
    landed := e.cur;
    torn := e.cur[HdrAt((s.core.ckpt + 1) % 2) := Bad];
    hide MemberOk, BodyEvents, CheckpointEvents, DoAll, PerOk, Coherent, RecsOk, ApplyRecs, DirtyCovers;
  }

  lemma SplitLoads(s: Sys, full: bool, n: nat, d1: Disk, d2: Disk, img1: Image, img2: Image)
    requires Inv(s) && MemberOk(s, d1) && MemberOk(s, d2) && n == |BodyEvents(s.core, full)| + 1
    requires n <= |CheckpointEvents(s.core, full)|
    requires IsImage(DoAll(d1, CheckpointEvents(s.core, full)[..n]), img1)
    requires IsImage(DoAll(d2, CheckpointEvents(s.core, full)[..n]), img2)
    requires HasHdr(NextPer(s.core, PerOf(s), full), img1)
    ensures Load(s.core.st.R, [img1, img2]).Ok? && Load(s.core.st.R, [img1, img2]).value.ckpt == s.core.ckpt + 1
  {
    hide *;
    BothElectable(s, full);
    InvInCore(s);
    var next, imgs := NextPer(s.core, PerOf(s), full), [img1, img2];
    CheckpointAt(s, full, d1, n, img1);
    CheckpointAt(s, full, d2, n, img2);
    ElectedTwo(next, img1, img2);
    ElectedLoads(s, Checkpoint(full), imgs, next);
    ElectableOk(s, Checkpoint(full), next);
    RecoveredCkpt(next, Load(s.core.st.R, imgs).value);
    NextCkpt(s.core, PerOf(s), full);
  }

  lemma ElectedTwo(per: Per, img1: Image, img2: Image)
    requires Stored(per, img1) && Stored(per, img2) && HasHdr(per, img1)
    ensures Elected(per, [img1, img2])
  {
    hide Stored, HasHdr;
    assert HasHdr(per, [img1, img2][0]);
  }

  lemma NextCkpt(core: Core, per: Per, full: bool)
    requires UsedCovers(core.st) && core.ckpt == per.ckpt
    ensures NextPer(core, per, full).ckpt == core.ckpt + 1
  {
    hide UsedCovers;
  }

  lemma SplitCuts(s: Sys, full: bool, m1: nat, m2: nat) returns (imgs: seq<Image>)
    requires Inv(s) && AllHold(s) && m1 in s.disks && m2 in s.disks && m1 != m2
    ensures |imgs| == 2 && CanCut(s, Checkpoint(full), |BodyEvents(s.core, full)| + 1, [m1, m2], imgs)
    ensures Load(s.core.st.R, imgs).Ok? && Load(s.core.st.R, imgs).value.ckpt == s.core.ckpt + 1
    ensures HasHdr(PerOf(s), imgs[1]) && Rd(imgs[1], HdrAt((s.core.ckpt + 1) % 2)) == Bad
  {
    hide *;
    MemberHeld(s, m1);
    MemberHeld(s, m2);
    CheckpointAllowed(s, full);
    var n := |BodyEvents(s.core, full)| + 1;
    var img1, other := SplitImages(s, full, s.disks[m1]);
    var another, img2 := SplitImages(s, full, s.disks[m2]);
    imgs := [img1, img2];
    HeaderKept(s, Checkpoint(full), s.disks[m2], n);
    SafeImage(PerOf(s), DoAll(s.disks[m2], CheckpointEvents(s.core, full)[..n]), img2);
    SplitLoads(s, full, n, s.disks[m1], s.disks[m2], img1, img2);
    HasHdrIsNew(PerOf(s), s.core, img2);
    CutOfTwo(s, Checkpoint(full), n, m1, m2, imgs);
  }

  lemma MemberHeld(s: Sys, m: nat)
    requires Inv(s) && AllHold(s) && m in s.disks
    ensures BasedOn(s) && InCore(s.core, PerOf(s))
    ensures MemberOk(s, s.disks[m]) && KeepsHdr(PerOf(s), s.disks[m]) && s.core.ckpt == PerOf(s).ckpt
  {
    hide InCore;
  }

  lemma CheckpointAllowed(s: Sys, full: bool)
    ensures Allowed(s.core, Checkpoint(full)) && Events(s.core, Checkpoint(full)) == CheckpointEvents(s.core, full)
  {
  }

  lemma CutOfTwo(s: Sys, act: Act, n: nat, m1: nat, m2: nat, imgs: seq<Image>)
    requires Allowed(s.core, act) && n <= |Events(s.core, act)| && |imgs| == 2
    requires m1 in s.disks && m2 in s.disks && m1 != m2
    requires IsImage(DoAll(s.disks[m1], Events(s.core, act)[..n]), imgs[0])
    requires IsImage(DoAll(s.disks[m2], Events(s.core, act)[..n]), imgs[1])
    requires NewHeader(s.core, imgs[1])
    ensures CanCut(s, act, n, [m1, m2], imgs)
  {
    hide Allowed, Events, IsImage, DoAll, NewHeader;
  }

  lemma Reload(s: Sys, act: Act, m1: nat, m2: nat, imgs: seq<Image>) returns (t: Sys)
    requires |imgs| == 2 && m1 != m2 && Load(s.core.st.R, imgs).Ok?
    requires Load(s.core.st.R, imgs).value.jhead <= |Issued(s, act)|
    ensures Reloaded(s, act, [m1, m2], imgs, t) && t.core == Load(s.core.st.R, imgs).value
    ensures m2 in t.disks && t.disks[m2] == Disk(imgs[1], map[])
  {
    hide Load;
    var core := Load(s.core.st.R, imgs).value;
    t := Sys(core, map[m1 := Disk(imgs[0], map[]), m2 := Disk(imgs[1], map[])], Issued(s, act)[..core.jhead],
             Most(s.acked, core.jtail));
    assert [m1, m2][0] == m1 && [m1, m2][1] == m2;
  }

  /** A power cut while the header of a checkpoint is written may leave it on one member only.
      The load takes it; then, with the next checkpoint's pages out but its header not yet,
      losing that member leaves a region that no load accepts. */
  lemma SplitHeader(s: Sys, full: bool, m1: nat, m2: nat) returns (imgs: seq<Image>, t: Sys, gone: Image)
    requires Inv(s) && AllHold(s) && s.core.ckpt > 0 && m1 in s.disks && m2 in s.disks && m1 != m2
    ensures Next(s, PowerCut(Checkpoint(full), |BodyEvents(s.core, full)| + 1, [m1, m2], imgs), t)
    ensures Back(t, Checkpoint(false), |BodyEvents(t.core, false)|, [m2], [gone])
    ensures Load(t.core.st.R, [gone]) == Unclean
  {
    hide *;
    MemberHeld(s, m1);
    var act, n := Checkpoint(full), |BodyEvents(s.core, full)| + 1;
    imgs := SplitCuts(s, full, m1, m2);
    CutRecovers(s, act, n, [m1, m2], imgs);
    t := Reload(s, act, m1, m2, imgs);
    CutKeeps(s, act, n, [m1, m2], imgs, t);
    ReloadedDurable(s, act, [m1, m2], imgs, t);
    InvInCore(t);
    SplitLacks(s, t, imgs[1], m2);
    var lost := NoHolderFails(t, [m2]);
    gone := OnlyImage(t, Checkpoint(false), |BodyEvents(t.core, false)|, m2, lost);
    CutIsNext(s, act, n, [m1, m2], imgs, t);
  }

  lemma ReloadedDurable(s: Sys, act: Act, members: seq<nat>, imgs: seq<Image>, t: Sys)
    requires |members| == |imgs| && Reloaded(s, act, members, imgs, t)
    ensures AllDurable(t)
  {
    hide Reloaded, HdrsDurable;
    forall m | m in t.disks ensures HdrsDurable(t.disks[m]) {
      NothingInFlight(s, act, members, imgs, t, m);
    }
  }

  /** the second member has the older header and no other */
  lemma SplitLacks(s: Sys, t: Sys, img: Image, m: nat)
    requires BasedOn(s) && s.core.ckpt == PerOf(s).ckpt && s.core.ckpt > 0 && HasHdr(PerOf(s), img)
    requires BasedOn(t) && PerOf(t).ckpt == t.core.ckpt == s.core.ckpt + 1
    requires m in t.disks && t.disks[m] == Disk(img, map[])
    requires Rd(img, HdrAt((s.core.ckpt + 1) % 2)) == Bad
    ensures Some(t, [m]) && !HolderBack(t, [m]) && NoFirstHeader(t, [m])
  {
    OneHolder(t, m);
    OwnImage(t.disks[m]);
    hide PerOf, BasedOn, HdrBody, HolderBack;
    OlderOnly(s.core.ckpt, PerOf(s), img);
    assert !HasHdr(PerOf(t), img);
    assert !Holder(t, m);
  }

  lemma OlderOnly(c: nat, per: Per, img: Image)
    requires c > 0 && per.ckpt == c && HasHdr(per, img) && Rd(img, HdrAt((c + 1) % 2)) == Bad
    ensures !HasGen(img, 0, 0) && !HasGen(img, 1, 0)
  {
  }

  lemma OnlyImage(s: Sys, act: Act, n: nat, m: nat, imgs: seq<Image>) returns (img: Image)
    requires Back(s, act, n, [m], imgs)
    ensures imgs == [img]
  {
    hide Allowed, Events, IsImage, DoAll;
    img := imgs[0];
  }

  lemma CutIsNext(s: Sys, act: Act, n: nat, members: seq<nat>, imgs: seq<Image>, t: Sys)
    requires CanCut(s, act, n, members, imgs) && Reloaded(s, act, members, imgs, t)
    ensures Next(s, PowerCut(act, n, members, imgs), t)
  {
    hide CanCut, Reloaded;
  }
}
