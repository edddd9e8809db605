/** Why a load must find again what an earlier one replayed.  The destroy of a snapshot is replayed
    from the one member that has its record, the freed row goes to a copy-on-write at once, and
    then that member is lost: the snapshot is back, and one of its rows is not its own any more. */
module SnapLost {
  import opened SnapState
  import opened SnapDerive
  import opened SnapRegion
  import opened SnapLoad
  import opened SnapStored
  import opened SnapReplay
  import opened SnapJoin
  import J = SnapJoin
  import R = SnapRun
  import W = SnapHolders
  import K = SnapCheckpoint
  import N = SnapCommit
  import S = SnapSplit
  import Q = SnapFound
  import C = SnapCow
  import I = SnapIsolation
  import H = SnapHistory

  // ---- the maps ----------------------------------------------------------------------------------------

  lemma {:induction false} OldestDrops(st: St, n: nat)
    requires st.snaps != []
    ensures var s := DropRows(st, 0, n);
      s.snaps == st.snaps && s.origin == st.origin && s.R == st.R && s.O == st.O && s.nextId == st.nextId
  {
    if n > 0 {
      OldestDrops(st, n - 1);
      hide RmapSet;
    }
  }

  lemma OldestDestroyed(st: St)
    requires st.snaps != []
    ensures IndexOf(st.snaps, st.snaps[0].slot) == 0
    ensures var s := ApplyDestroy(st, st.snaps[0].slot);
      s.snaps == st.snaps[1..] && s.origin == st.origin && s.R == st.R && s.O == st.O
  {
    OldestDrops(st, st.O);
    hide DropRows;
  }

  /** no origin row and no exception of these snapshots is in row p */
  predicate Unread(origin: seq<nat>, snaps: seq<Snap>, p: nat) {
    p !in origin && forall i :: 0 <= i < |snaps| ==> p !in snaps[i].exc.Values
  }

  lemma OldestAlone(st: St, L: nat)
    requires Coherent(st) && st.snaps != [] && L in st.snaps[0].exc
    ensures st.snaps[0].exc[L] < st.R && Unread(st.origin, st.snaps[1..], st.snaps[0].exc[L])
  {
    hide Owner;
    assert Owner(st, st.snaps[0].exc[L]) == Ent(L, OwnSnap(st.snaps[0].slot));
  }

  lemma UnreadFree(st: St, p: nat)
    requires Coherent(st) && p < st.R && Unread(st.origin, st.snaps, p)
    ensures Owner(st, p).own.OwnFree?
  {
    hide Owner;
  }

  /** the destroy of the oldest snapshot frees its rows */
  lemma OldestFreed(st: St, t: St, L: nat)
    requires Coherent(st) && Coherent(t) && st.snaps != [] && L in st.snaps[0].exc
    requires t.snaps == st.snaps[1..] && t.origin == st.origin && t.R == st.R && t.O == st.O
    ensures st.snaps[0].exc[L] < st.R && Owner(t, st.snaps[0].exc[L]).own.OwnFree?
  {
    hide *;
    OldestAlone(st, L);
    UnreadFree(t, st.snaps[0].exc[L]);
  }

  lemma OneDestroy(st: St, slot: nat)
    requires RecsOk(st, [[Destroy(slot)]])
    ensures IndexOf(st.snaps, slot) < |st.snaps| && ApplyRecs(st, [[Destroy(slot)]]) == ApplyDestroy(st, slot)
  {
    var recs, op := [[Destroy(slot)]], Destroy(slot);
    assert recs[0] == [op] && recs[1..] == [] && [op][0] == op && [op][1..] == [];
    assert OpsOk(st, [op]) && ApplyAll(st, [op]) == Apply(st, op);
    hide OpsOk, ApplyAll, ApplyDestroy;
  }

  /** the state after a replayed destroy of the oldest snapshot */
  lemma DestroyReplayed(st: St, t: St, L: nat)
    requires Coherent(st) && UsedCovers(st) && st.snaps != [] && L in st.snaps[0].exc
    requires Coherent(t) && UsedCovers(t) && Settled(t) == t && RecsOk(Settled(st), [[Destroy(st.snaps[0].slot)]])
    requires t == ApplyRecs(Settled(st), [[Destroy(st.snaps[0].slot)]])
    ensures t.snaps == st.snaps[1..] && t.origin == st.origin && t.R == st.R && t.O == st.O
    ensures st.snaps[0].exc[L] < t.R && st.snaps[0].exc[L] !in t.used
  {
    hide *;
    SettledCoherent(st);
    SettledSame(st);
    OneDestroy(Settled(st), st.snaps[0].slot);
    OldestDestroyed(Settled(st));
    OldestFreed(Settled(st), t, L);
    SettledUsed(t, st.snaps[0].exc[L]);
  }

  lemma SettledSame(st: St)
    requires UsedCovers(st)
    ensures Settled(st) == st.(used := Settled(st).used)
  {
  }

  lemma SettledUsed(st: St, p: nat)
    requires UsedCovers(st) && Settled(st) == st && Owner(st, p).own.OwnFree?
    ensures p !in st.used
  {
  }

  // ---- the region ----------------------------------------------------------------------------------------

  lemma HolderUsed(s: R.Sys, used: set<nat>, m: nat)
    requires W.Holder(s, m)
    ensures W.Holder(Used(s, used), m)
  {
    var t := Used(s, used);
    assert R.BasedOn(t) && R.PerOf(t) == R.PerOf(s);
    hide K.KeepsHdr;
  }

  lemma OneSome(s: R.Sys, m: nat)
    requires m in s.disks
    ensures S.Some(s, [m])
  {
  }

  lemma NotRead(img: Image, q: nat)
    requires Rd(img, JrnlAt(q % JPAGES)) == Bad
    ensures !Get([img], JrnlAt(q % JPAGES), Exactly(q)).Found?
  {
    GetFinds([img], JrnlAt(q % JPAGES), Exactly(q));
  }

  lemma LoadedJtail(reg: R.Sys, used: set<nat>, n: nat, members: seq<nat>, imgs: seq<Image>)
    requires R.Inv(reg) && R.CanCut(reg, R.Reserve(used), n, members, imgs)
    ensures Load(reg.core.st.R, imgs).Ok? && Load(reg.core.st.R, imgs).value.jtail <= reg.acked
  {
    hide *;
    var e := R.CutOther(reg, R.Reserve(used), n, members, imgs);
    R.ElectedLoads(reg, R.Reserve(used), imgs, e);
    R.ElectableOk(reg, R.Reserve(used), e);
    Q.LoadedTail(e, Load(reg.core.st.R, imgs).value);
    TailAcked(reg);
  }

  lemma TailAcked(reg: R.Sys)
    requires R.Inv(reg)
    ensures R.BasedOn(reg) && R.PerOf(reg).jtail <= reg.acked <= |reg.hist|
  {
    assert RingFits(R.PerOf(reg));
    hide R.MemberOk, RecsOk, ApplyRecs, Coherent, DirtyCovers;
  }

  /** the member without the record comes back alone: the array goes on from before it */
  lemma LoadsWithout(s: R.Sys, m: nat, img: Image) returns (t: R.Sys)
    requires R.Inv(s) && W.Holder(s, m) && s.disks[m] == Disk(img, map[]) && |s.hist| == s.acked + 1
    requires Rd(img, JrnlAt(s.acked % JPAGES)) == Bad
    ensures var act := R.Reserve(s.core.st.used);
      R.CanCut(s, act, 0, [m], [img]) && R.Reloaded(s, act, [m], [img], t)
    ensures t.core.jhead == s.acked && t.hist == s.hist[..s.acked]
  {
    var act, imgs := R.Reserve(s.core.st.used), [img];
    hide *;
    HolderIn(s, m);
    OneSome(s, m);
    S.NowBack(s, [m], imgs);
    W.OneHolder(s, m);
    W.HolderCuts(s, act, 0, [m], imgs);
    R.CutRecovers(s, act, 0, [m], imgs);
    LoadedJtail(s, s.core.st.used, 0, [m], imgs);
    var core := Load(s.core.st.R, imgs).value;
    IssuedSame(s);
    if core.jhead > s.acked {
      Q.LoadRead(s.core.st.R, imgs, s.acked);
      NotRead(img, s.acked);
      assert false;
    }
    t := ReloadOne(s, m, img, core);
  }

  lemma IssuedSame(s: R.Sys)
    ensures R.Issued(s, R.Reserve(s.core.st.used)) == s.hist
  {
  }

  lemma HolderIn(s: R.Sys, m: nat)
    requires W.Holder(s, m)
    ensures m in s.disks
  {
    hide K.KeepsHdr, R.BasedOn;
  }

  lemma ReloadOne(s: R.Sys, m: nat, img: Image, core: Core) returns (t: R.Sys)
    requires Load(s.core.st.R, [img]) == Ok(core) && core.jhead == s.acked <= |s.hist|
    ensures R.Reloaded(s, R.Reserve(s.core.st.used), [m], [img], t)
    ensures t.core == core && t.hist == s.hist[..s.acked]
  {
    hide Load;
    t := R.Sys(core, map[m := Disk(img, map[])], s.hist[..s.acked], R.Most(s.acked, core.jtail));
    assert [m][0] == m && [img][0] == img;
  }

  // ---- the run -------------------------------------------------------------------------------------------

  /** the record that destroys the oldest snapshot is on its way to the members */
  ghost predicate DestroyUnderWay(j: Joint, L: nat) {
    && Inv(j) && W.AllHold(j.reg)
    && |j.cow.st.snaps| > 1 && L in j.cow.st.snaps[0].exc
    && j.going == [[Destroy(j.cow.st.snaps[0].slot)]]
  }

  /** the state the next load makes of all the records of the last one, and no more */
  lemma SameState(a: R.Sys, b: R.Sys, n: nat, members: seq<nat>, imgs: seq<Image>, t: R.Sys)
    requires R.Inv(a) && R.Inv(b) && b.core.st.R == a.core.st.R && b.core.st.O == a.core.st.O
    requires R.CanCut(b, R.Reserve(b.core.st.used), n, members, imgs)
    requires Load(b.core.st.R, imgs) == Ok(t.core) && t.core.jhead <= |b.hist| && b.hist[..t.core.jhead] == a.hist
    ensures UsedCovers(a.core.st) && t.core.st == Settled(a.core.st)
  {
    hide *;
    LoadedState(b, R.Reserve(b.core.st.used), n, members, imgs);
    IssuedSame(b);
    R.InvState(a);
    assert a.hist + [] == a.hist;
    StateOn(a.core.st, a.hist, [], t.core.st);
    NoRecs(Settled(a.core.st));
  }

  lemma NoRecs(st: St)
    ensures RecsOk(st, []) && ApplyRecs(st, []) == st
  {
  }

  lemma StartsWhole(s: C.Sys, st: St, rows: map<nat, C.Row>, w: C.Write, p: nat)
    requires s.slots > 0 && C.GoodWrite(Booted(s, st, rows), w) && C.Whole(Booted(s, st, rows), w)
    requires Shared(st, w.L) && p < st.R && p !in st.used
    ensures var u := Booted(s, st, rows);
      && C.Can(u, C.Map(w, p)) && p in C.Do(u, C.Map(w, p)).dirty
      && C.Do(u, C.Map(w, p)).rows == rows && C.Do(u, C.Map(w, p)).rs == s.rs
  {
    hide C.Freeze;
  }

  lemma RowLeft(s: C.Sys, p: nat, row: C.Row)
    requires I.RowsWhole(s) && p in s.dirty && p < s.st.R && |row| == s.rs
    ensures RowsLeft(s, s.rows[p := row])
  {
    hide Coherent;
    assert s.rows[p := row].Keys == s.rows.Keys;
  }

  lemma AllLeft(s: C.Sys)
    requires I.RowsWhole(s)
    ensures RowsLeft(s, s.rows)
  {
    hide Coherent;
  }

  /** the oldest snapshot reads its own row */
  lemma OldestReads(s: C.Sys, st: St, rows: map<nat, C.Row>, L: nat)
    requires Coherent(st) && st.snaps != [] && L in st.snaps[0].exc && st.snaps[0].exc[L] in rows
    ensures var id := st.snaps[0].id;
      && id in C.ChainIds(st.snaps) && L < |H.Reads(Booted(s, st, rows), id)|
      && H.Reads(Booted(s, st, rows), id)[L] == rows[st.snaps[0].exc[L]]
  {
    hide C.Freeze, Owner;
    assert st.snaps[0].id in C.ChainIds(st.snaps);
  }

  lemma CutImages(s: R.Sys, rec: seq<Op>, m1: nat, m2: nat) returns (imgs: seq<Image>)
    requires m1 in s.disks && m2 in s.disks
    ensures var a := JrnlAt(s.core.jhead % JPAGES);
      imgs == [s.disks[m1].cur[a := Good(s.core.jhead, Jrnl(rec))], s.disks[m2].cur[a := Bad]]
      && Rd(imgs[1], a) == Bad
  {
    var a := JrnlAt(s.core.jhead % JPAGES);
    imgs := [s.disks[m1].cur[a := Good(s.core.jhead, Jrnl(rec))], s.disks[m2].cur[a := Bad]];
  }

  lemma Parts(j: Joint, L: nat)
    requires DestroyUnderWay(j, L)
    ensures Inv(j) && W.AllHold(j.reg) && I.Inv(j.cow) && R.Inv(j.reg) && j.reg.core.st == j.cow.st
    ensures |j.cow.st.snaps| > 1 && L in j.cow.st.snaps[0].exc
    ensures j.going == [[Destroy(j.cow.st.snaps[0].slot)]] && R.Allowed(j.reg.core, R.Commit(j.going, false))
    ensures N.CanCommit(j.reg.core, j.going) && j.cow.slots > 0
  {
    hide I.Inv, R.Inv, W.AllHold;
    SlotsIn(j.cow);
  }

  lemma SlotsIn(s: C.Sys)
    requires I.Inv(s)
    ensures s.slots > 0 && I.RowsWhole(s)
  {
    I.InvParts(s);
    hide I.Inv;
  }

  /** the first power cut: the record is on one of the two members, and is replayed */
  lemma Replayed(j: Joint, L: nat, m1: nat, m2: nat) returns (imgs: seq<Image>, u: Joint)
    requires DestroyUnderWay(j, L) && m1 in j.reg.disks && m2 in j.reg.disks && m1 != m2
    ensures Next(j, PowerCut(R.Commit(j.going, false), 1, [m1, m2], imgs, j.cow.rows), u) && Inv(u)
    ensures u.reg.hist == j.reg.hist + j.going && u.reg.acked == |j.reg.hist| && W.Holder(u.reg, m2)
    ensures |imgs| == 2 && u.going == [] && m2 in u.reg.disks && u.reg.disks[m2] == Disk(imgs[1], map[])
    ensures Rd(imgs[1], JrnlAt(u.reg.acked % JPAGES)) == Bad
    ensures u.cow == Booted(j.cow, u.cow.st, j.cow.rows)
    ensures u.cow.st.snaps == j.cow.st.snaps[1..] && u.cow.st.origin == j.cow.st.origin
    ensures u.cow.st.R == j.cow.st.R && u.cow.st.O == j.cow.st.O
    ensures j.cow.st.snaps[0].exc[L] < u.cow.st.R && j.cow.st.snaps[0].exc[L] !in u.cow.st.used
  {
    var act := R.Commit(j.going, false);
    hide *;
    Parts(j, L);
    Q.Scrubbed(j.reg, j.going[0]);
    Q.AllAcked(j.reg);
    imgs := CutImages(j.reg, j.going[0], m1, m2);
    var reg := Q.SplitTaken(j.reg, j.going[0], m1, m2, imgs);
    SlotsIn(j.cow);
    AllLeft(j.cow);
    GoingUnderWay(j);
    IssuedIs(j, act);
    u := BootedFrom(j, act, 1, [m1, m2], imgs, j.cow.rows, reg);
    CutJoins(j, act, 1, [m1, m2], imgs, j.cow.rows, u);
    InvIs(u);
    LoadedState(j.reg, act, 1, [m1, m2], imgs);
    R.InvState(j.reg);
    StateOn(j.cow.st, j.reg.hist, j.going, u.cow.st);
    StateCovers(j.cow);
    StateCovers(u.cow);
    DestroyReplayed(j.cow.st, u.cow.st, L);
  }

  lemma BootedFrom(j: Joint, act: R.Act, n: nat, members: seq<nat>, imgs: seq<Image>, rows: map<nat, C.Row>, reg: R.Sys)
    returns (u: Joint)
    requires UnderWay(j, act) && RowsLeft(j.cow, rows)
    requires R.CanCut(j.reg, act, n, members, imgs) && R.Reloaded(j.reg, act, members, imgs, reg)
    ensures u == Joint(Booted(j.cow, reg.core.st, rows), reg, []) && Next(j, PowerCut(act, n, members, imgs, rows), u)
    ensures Load(j.reg.core.st.R, imgs) == Ok(reg.core) && reg.core.jhead <= |R.Issued(j.reg, act)|
    ensures reg.hist == R.Issued(j.reg, act)[..reg.core.jhead] && u.cow.st == reg.core.st
  {
    u := Joint(Booted(j.cow, reg.core.st, rows), reg, []);
    hide R.CanCut, Load, UnderWay, RowsLeft, C.Freeze;
  }

  lemma GoingUnderWay(j: Joint)
    ensures j.going != [] ==> UnderWay(j, R.Commit(j.going, false))
    ensures j.going == [] ==> UnderWay(j, R.Reserve(j.reg.core.st.used))
  {
  }

  /** a whole write to a row another snapshot shares takes the freed row */
  lemma RowTaken(j: Joint, u: Joint, w: C.Write, p: nat) returns (v: Joint)
    requires Inv(j) && Inv(u) && u.cow == Booted(j.cow, u.cow.st, j.cow.rows) && u.going == []
    requires |j.cow.st.snaps| > 1 && u.cow.st.snaps == j.cow.st.snaps[1..] && u.cow.st.origin == j.cow.st.origin
    requires u.cow.st.O == j.cow.st.O && p < u.cow.st.R && p !in u.cow.st.used
    requires C.GoodWrite(j.cow, w) && C.Whole(j.cow, w) && Shared(j.cow.st, w.L)
    ensures Next(u, Cow(C.Map(w, p)), v) && Inv(v) && v.going == []
    ensures v.reg == Used(u.reg, v.cow.st.used) && v.cow.rows == j.cow.rows && v.cow.rs == j.cow.rs && p in v.cow.dirty
    ensures v.cow.st.R == u.cow.st.R
  {
    hide *;
    InvIs(j);
    SlotsIn(j.cow);
    BootedSame(j.cow, u.cow.st, j.cow.rows);
    StillShared(j.cow, u.cow, w);
    StartsWhole(j.cow, u.cow.st, j.cow.rows, w, p);
    CowSt(u.cow, C.Map(w, p));
    v := CowNext(u, C.Map(w, p));
    NotFound(u, C.Map(w, p), v);
    StepJoins(u, Cow(C.Map(w, p)), v);
  }

  lemma BootedSame(s: C.Sys, st: St, rows: map<nat, C.Row>)
    ensures Booted(s, st, rows).st == st && Booted(s, st, rows).rs == s.rs
  {
    hide C.Freeze;
  }

  lemma StillShared(s: C.Sys, u: C.Sys, w: C.Write)
    requires |s.st.snaps| > 1 && u.st.snaps == s.st.snaps[1..] && u.st.origin == s.st.origin && u.st.O == s.st.O
    requires u.rs == s.rs
    requires C.GoodWrite(s, w) && C.Whole(s, w) && Shared(s.st, w.L)
    ensures C.GoodWrite(u, w) && C.Whole(u, w) && Shared(u.st, w.L)
  {
  }

  lemma CowNext(u: Joint, c: C.Step) returns (v: Joint)
    requires C.Can(u.cow, c) && c.Map?
    ensures v == Joint(C.Do(u.cow, c), Used(u.reg, C.Do(u.cow, c).st.used), u.going) && Next(u, Cow(c), v)
  {
    hide C.Can, C.Do, Used;
    v := Joint(C.Do(u.cow, c), Used(u.reg, C.Do(u.cow, c).st.used), u.going);
  }

  lemma NotFound(u: Joint, c: C.Step, v: Joint)
    ensures J.Found(u, Cow(c), v)
  {
  }

  /** the second power cut: the other member comes back alone, without the record */
  lemma Returned(j: Joint, v: Joint, m: nat, img: Image, p: nat, row: C.Row) returns (t: Joint)
    requires Inv(j) && Inv(v) && v.going == [] && v.cow.st.R == j.cow.st.R && v.cow.st.O == j.cow.st.O
    requires W.Holder(v.reg, m) && m in v.reg.disks && v.reg.disks[m] == Disk(img, map[])
    requires |v.reg.hist| == v.reg.acked + 1 && v.reg.hist[..v.reg.acked] == j.reg.hist
    requires Rd(img, JrnlAt(v.reg.acked % JPAGES)) == Bad
    requires p in v.cow.dirty && p < v.cow.st.R && |row| == v.cow.rs
    ensures Next(v, PowerCut(R.Reserve(v.reg.core.st.used), 0, [m], [img], v.cow.rows[p := row]), t)
    ensures UsedCovers(j.cow.st) && t.cow == Booted(v.cow, Settled(j.cow.st), v.cow.rows[p := row])
  {
    var act, rows := R.Reserve(v.reg.core.st.used), v.cow.rows[p := row];
    hide *;
    InvIs(j);
    InvIs(v);
    SlotsIn(v.cow);
    RowLeft(v.cow, p, row);
    GoingUnderWay(v);
    var reg := LoadsWithout(v.reg, m, img);
    t := BootedFrom(v, act, 0, [m], [img], rows, reg);
    SameState(j.reg, v.reg, 0, [m], [img], reg);
  }

  /** Without the record that an earlier load replayed, a snapshot does change: the oldest one is
      destroyed, the destroy is replayed from one member, a write to a row that another snapshot
      shares is copied to the row that was freed, and the next load, from the other member, brings
      the snapshot back with whatever that write left in its row. */
  lemma SnapshotChanges(j: Joint, L: nat, w: C.Write, m1: nat, m2: nat, row: C.Row)
    returns (imgs: seq<Image>, u: Joint, v: Joint, t: Joint)
    requires DestroyUnderWay(j, L) && m1 in j.reg.disks && m2 in j.reg.disks && m1 != m2 && |row| == j.cow.rs
    requires C.GoodWrite(j.cow, w) && C.Whole(j.cow, w) && Shared(j.cow.st, w.L)
    ensures |imgs| == 2 && Next(j, PowerCut(R.Commit(j.going, false), 1, [m1, m2], imgs, j.cow.rows), u)
    ensures Next(u, Cow(C.Map(w, j.cow.st.snaps[0].exc[L])), v)
    ensures var rows := v.cow.rows[j.cow.st.snaps[0].exc[L] := row];
      Next(v, PowerCut(R.Reserve(v.reg.core.st.used), 0, [m2], imgs[1..], rows), t)
    ensures var id := j.cow.st.snaps[0].id;
      && id in C.ChainIds(j.cow.st.snaps) && id in C.ChainIds(t.cow.st.snaps)
      && L < |H.Reads(t.cow, id)| == |H.Reads(j.cow, id)| && H.Reads(t.cow, id)[L] == row
  {
    hide *;
    Parts(j, L);
    imgs, u := Replayed(j, L, m1, m2);
    assert imgs[1..] == [imgs[1]];
    v, t := TakenBack(j, u, L, w, m2, imgs[1], row);
    ReadsRow(j, v, t, L, row);
  }

  lemma TakenBack(j: Joint, u: Joint, L: nat, w: C.Write, m: nat, img: Image, row: C.Row) returns (v: Joint, t: Joint)
    requires Inv(j) && Inv(u) && u.cow == Booted(j.cow, u.cow.st, j.cow.rows) && u.going == []
    requires |j.cow.st.snaps| > 1 && u.cow.st.snaps == j.cow.st.snaps[1..] && u.cow.st.origin == j.cow.st.origin
    requires L in j.cow.st.snaps[0].exc && u.cow.st.O == j.cow.st.O && u.cow.st.R == j.cow.st.R
    requires j.cow.st.snaps[0].exc[L] < u.cow.st.R && j.cow.st.snaps[0].exc[L] !in u.cow.st.used
    requires C.GoodWrite(j.cow, w) && C.Whole(j.cow, w) && Shared(j.cow.st, w.L) && |row| == j.cow.rs
    requires u.reg.hist == j.reg.hist + j.going && |j.going| == 1 && u.reg.acked == |j.reg.hist|
    requires W.Holder(u.reg, m) && m in u.reg.disks && u.reg.disks[m] == Disk(img, map[])
    requires Rd(img, JrnlAt(u.reg.acked % JPAGES)) == Bad
    ensures Next(u, Cow(C.Map(w, j.cow.st.snaps[0].exc[L])), v)
    ensures var rows := v.cow.rows[j.cow.st.snaps[0].exc[L] := row];
      && Next(v, PowerCut(R.Reserve(v.reg.core.st.used), 0, [m], [img], rows), t)
      && UsedCovers(j.cow.st) && t.cow == Booted(v.cow, Settled(j.cow.st), rows)
  {
    var p := j.cow.st.snaps[0].exc[L];
    hide *;
    v := RowTaken(j, u, w, p);
    HolderUsed(u.reg, v.cow.st.used, m);
    UsedSame(u.reg, v.cow.st.used);
    assert (j.reg.hist + j.going)[..|j.reg.hist|] == j.reg.hist;
    t := Returned(j, v, m, img, p, row);
  }

  lemma ReadsRow(j: Joint, v: Joint, t: Joint, L: nat, row: C.Row)
    requires Inv(j) && j.cow.st.snaps != [] && L in j.cow.st.snaps[0].exc && UsedCovers(j.cow.st)
    requires t.cow == Booted(v.cow, Settled(j.cow.st), v.cow.rows[j.cow.st.snaps[0].exc[L] := row])
    ensures var id := j.cow.st.snaps[0].id;
      && id in C.ChainIds(j.cow.st.snaps) && id in C.ChainIds(t.cow.st.snaps)
      && L < |H.Reads(t.cow, id)| == |H.Reads(j.cow, id)| && H.Reads(t.cow, id)[L] == row
  {
    var rows := v.cow.rows[j.cow.st.snaps[0].exc[L] := row];
    hide *;
    InvIs(j);
    StateCovers(j.cow);
    SettledCoherent(j.cow.st);
    SettledSame(j.cow.st);
    BootedSame(v.cow, Settled(j.cow.st), rows);
    OldestReads(v.cow, Settled(j.cow.st), rows, L);
    OldestIn(j.cow.st.snaps);
    AsLong(j.cow, t.cow, j.cow.st.snaps[0].id);
  }

  lemma OldestIn(snaps: seq<Snap>)
    requires snaps != []
    ensures snaps[0].id in C.ChainIds(snaps)
  {
  }

  lemma UsedSame(s: R.Sys, used: set<nat>)
    ensures Used(s, used).hist == s.hist && Used(s, used).acked == s.acked && Used(s, used).disks == s.disks
  {
  }

  lemma AsLong(s: C.Sys, t: C.Sys, id: nat)
    requires id in C.ChainIds(s.st.snaps) && id in C.ChainIds(t.st.snaps) && s.st.origin == t.st.origin
    ensures |H.Reads(s, id)| == |H.Reads(t, id)|
  {
  }
}
