/** The copy-on-write machine and the members' regions as one: the state both work on, the
    records of the batch under way on their way to the members, and after a power cut the state
    that a load builds from the bytes of the members that come back. */
module SnapJoin {
  import opened SnapState
  import opened SnapDerive
  import opened SnapRegion
  import opened SnapLoad
  import opened SnapStored
  import opened SnapReplay
  import opened SnapRecover
  import opened SnapCheckpoint
  import opened SnapCommit
  import opened SnapPrivate
  import opened JournalCodec
  import M = SnapMeta
  import R = SnapRun
  import W = SnapHolders
  import Q = SnapFound
  import C = SnapCow
  import I = SnapIsolation
  import F = SnapFrozen
  import H = SnapHistory

  /** going: the records that may be on some members and are not acknowledged */
  datatype Joint = Joint(cow: C.Sys, reg: R.Sys, going: seq<seq<Op>>)

  datatype Step =
    | Cow(step: C.Step)
    | Region(act: R.Act, lost: set<nat>)
    | Record(recs: seq<seq<Op>>)
    | Commit(data: bool, lost: set<nat>)
    | PowerCut(act: R.Act, n: nat, members: seq<nat>, imgs: seq<Image>, rows: map<nat, C.Row>)

  /** the rows in use change in core only */
  function Used(reg: R.Sys, used: set<nat>): R.Sys {
    reg.(core := reg.core.(st := reg.core.st.(used := used)))
  }

  /** what the region was being sent */
  predicate UnderWay(j: Joint, act: R.Act) {
    if j.going == [] then !act.Commit? else act.Commit? && act.recs == j.going
  }

  /** what a power cut may leave of the rows */
  predicate RowsLeft(s: C.Sys, rows: map<nat, C.Row>) {
    rows.Keys == s.rows.Keys
    && forall P :: P in rows ==> |rows[P]| == s.rs && (P !in s.dirty ==> rows[P] == s.rows[P])
  }

  /** the array assembled again on the state that was loaded */
  ghost function Booted(s: C.Sys, st: St, rows: map<nat, C.Row>): C.Sys {
    C.Sys(s.rs, s.slots, st, rows, {}, map[], map[], [], false, false, false, [], C.Idle, [],
          C.Freeze(s.st.snaps, s.frozen, st, rows))
  }

  ghost predicate Next(j: Joint, step: Step, t: Joint) {
    match step
    case Cow(c) =>
      !c.Record? && !c.Commit? && !c.PowerCut? && C.Can(j.cow, c)
      && t == Joint(C.Do(j.cow, c), Used(j.reg, C.Do(j.cow, c).st.used), j.going)
    case Region(act, lost) =>
      (act.Checkpoint? || act.Scrub?) && j.going == []
      && R.Next(j.reg, R.Done(act, lost), t.reg) && t.cow == j.cow && t.going == []
    case Record(recs) =>
      C.Can(j.cow, C.Record) && Flatten(recs) == C.Ops(j.cow.cows, j.cow.batch.items)
      && (recs != [] ==> R.Allowed(j.reg.core, R.Commit(recs, false)))
      && t == Joint(C.Do(j.cow, C.Record), j.reg, recs)
    case Commit(data, lost) =>
      C.Can(j.cow, C.Commit) && t.cow == C.Do(j.cow, C.Commit) && t.going == []
      && if j.going == [] then t.reg == j.reg else R.Next(j.reg, R.Done(R.Commit(j.going, data), lost), t.reg)
    case PowerCut(act, n, members, imgs, rows) =>
      UnderWay(j, act) && RowsLeft(j.cow, rows)
      && R.CanCut(j.reg, act, n, members, imgs) && R.Reloaded(j.reg, act, members, imgs, t.reg)
      && t.cow == Booted(j.cow, t.reg.core.st, rows) && t.going == []
  }

  /** no record that an earlier load replayed is missing now */
  predicate Found(j: Joint, step: Step, t: Joint) {
    step.PowerCut? ==> |j.reg.hist| <= t.reg.core.jhead
  }

  ghost predicate Inv(j: Joint) {
    && I.Inv(j.cow) && R.Inv(j.reg) && j.reg.core.st == j.cow.st && Flatten(j.going) == C.InDoubt(j.cow)
    && (j.going != [] ==> R.Allowed(j.reg.core, R.Commit(j.going, false)))
  }

  /** on the COW machine the step is some of its steps */
  ghost predicate IsRun(s: C.Sys, t: C.Sys) {
    exists steps :: H.CanRun(s, steps) && H.Run(s, steps) == t
  }

  lemma OneStep(s: C.Sys, step: C.Step)
    requires C.Can(s, step)
    ensures IsRun(s, C.Do(s, step))
  {
    var steps := [step];
    assert steps[1..] == [];
    hide C.Can, C.Do;
    assert H.CanRun(C.Do(s, step), []);
    assert H.CanRun(s, steps) && H.Run(s, steps) == C.Do(s, step);
  }

  lemma NoStep(s: C.Sys)
    ensures IsRun(s, s)
  {
    assert H.CanRun(s, []) && H.Run(s, []) == s;
  }

  // ---- records and batches ------------------------------------------------------------------------

  lemma {:induction false} FlatApplies(st: St, recs: seq<seq<Op>>)
    requires OpsOk(st, Flatten(recs))
    ensures RecsOk(st, recs) && ApplyRecs(st, recs) == ApplyAll(st, Flatten(recs))
    decreases |recs|
  {
    if recs != [] {
      M.FlattenCons(recs);
      OpsJoin(st, recs[0], Flatten(recs[1..]));
      hide Flatten, ApplyAll, OpsOk;
      FlatApplies(ApplyAll(st, recs[0]), recs[1..]);
    }
  }

  lemma {:induction false} OpsJoin(st: St, a: seq<Op>, b: seq<Op>)
    ensures OpsOk(st, a + b) <==> OpsOk(st, a) && OpsOk(ApplyAll(st, a), b)
    ensures OpsOk(st, a + b) ==> ApplyAll(st, a + b) == ApplyAll(ApplyAll(st, a), b)
    decreases |a|
  {
    if a == [] {
      assert a + b == b;
    } else {
      assert (a + b)[0] == a[0] && (a + b)[1..] == a[1..] + b;
      hide OpOk, Apply, Applicable;
      if OpOk(st, a[0]) && Applicable(st, a[0]) {
        OpsJoin(Apply(st, a[0]), a[1..], b);
      }
    }
  }

  lemma {:induction false} FlattenJoin(a: seq<seq<Op>>, b: seq<seq<Op>>)
    ensures Flatten(a + b) == Flatten(a) + Flatten(b)
    decreases |b|
  {
    if b == [] {
      assert a + b == a && Flatten(b) == [];
      assert Flatten(a) + [] == Flatten(a);
    } else {
      hide Flatten;
      var n := |b| - 1;
      assert b == b[..n] + [b[n]] && a + b == (a + b[..n]) + [b[n]];
      FlattenJoin(a, b[..n]);
      M.FlattenSnoc(a + b[..n], b[n]);
      M.FlattenSnoc(b[..n], b[n]);
      assert (Flatten(a) + Flatten(b[..n])) + b[n] == Flatten(a) + (Flatten(b[..n]) + b[n]);
    }
  }

  /** applying ops to the settled state gives the settled state */
  lemma {:induction false} SettledAll(st: St, ops: seq<Op>)
    requires Coherent(st) && UsedCovers(st) && OpsOk(st, ops)
    ensures UsedCovers(ApplyAll(st, ops)) && OpsOk(Settled(st), ops)
    ensures Settled(ApplyAll(st, ops)) == ApplyAll(Settled(st), ops)
    decreases |ops|
  {
    hide Coherent, UsedCovers, Settled, OpOk, Apply, Applicable;
    if ops != [] {
      SettledApply(st, ops[0]);
      SettledAll(Apply(st, ops[0]), ops[1..]);
    }
  }

  // ---- what is in doubt stays in doubt ----------------------------------------------------------------

  /** COWs queued for the journal keep their rows */
  ghost predicate QueuedStay(s: C.Sys, t: C.Sys) {
    forall L :: L in s.cows && s.cows[L].at.Queued? ==>
      L in t.cows && t.cows[L].oldP == s.cows[L].oldP && t.cows[L].newP == s.cows[L].newP
  }

  lemma SameOps(s: C.Sys, t: C.Sys)
    requires I.ItemsOk(s) && QueuedStay(s, t)
    ensures C.Ops(t.cows, C.BatchItems(s.batch)) == C.Ops(s.cows, C.BatchItems(s.batch))
  {
    var items := C.BatchItems(s.batch);
    forall i | 0 <= i < |items| ensures C.ItemOp(t.cows, items[i]) == C.ItemOp(s.cows, items[i]) {
      assert C.Items(s)[i] == items[i];
      assert I.ItemOk(s, C.Items(s)[i]);
    }
  }

  lemma SameDoubt(s: C.Sys, t: C.Sys)
    requires I.ItemsOk(s) && QueuedStay(s, t) && t.lost == s.lost
    requires s.batch.Recording? == t.batch.Recording? && (s.batch.Recording? ==> t.batch == s.batch)
    ensures C.InDoubt(t) == C.InDoubt(s)
  {
    hide QueuedStay, I.ItemsOk, C.Ops;
    SameOps(s, t);
  }

  lemma CowAdded(s: C.Sys, t: C.Sys, L: nat, c: C.Cow)
    requires L !in s.cows && t.cows == s.cows[L := c]
    ensures QueuedStay(s, t)
  {
  }

  lemma CowWaits(s: C.Sys, t: C.Sys, L: nat, waiters: seq<C.Write>)
    requires L in s.cows && t.cows == s.cows[L := s.cows[L].(waiters := waiters)]
    ensures QueuedStay(s, t)
  {
  }

  lemma CowsSame(s: C.Sys, t: C.Sys)
    requires t.cows == s.cows
    ensures QueuedStay(s, t)
  {
  }

  lemma MapQueued(s: C.Sys, w: C.Write, p: nat)
    requires C.GoodWrite(s, w)
    ensures var t := C.MapWrite(s, w, p);
      QueuedStay(s, t) && t.lost == s.lost && t.batch == s.batch
  {
    assert w.L < |s.st.origin|;
    JudgeCow(s, w, p);
    hide C.Judge, C.GoodWrite, QueuedStay;
    var t := C.MapWrite(s, w, p);
    match C.Judge(s, w, p) {
      case StartsWhole => CowAdded(s, t, w.L, t.cows[w.L]);
      case StartsPartial => CowAdded(s, t, w.L, t.cows[w.L]);
      case Waits =>
        if w.L in s.cows {
          CowWaits(s, t, w.L, s.cows[w.L].waiters + [w]);
        } else {
          CowsSame(s, t);
        }
      case _ => CowsSame(s, t);
    }
  }

  lemma MapDoubt(s: C.Sys, w: C.Write, p: nat)
    requires I.ItemsOk(s) && C.GoodWrite(s, w)
    ensures C.InDoubt(C.MapWrite(s, w, p)) == C.InDoubt(s)
  {
    hide *;
    MapQueued(s, w, p);
    SameDoubt(s, C.MapWrite(s, w, p));
  }

  lemma JudgeCow(s: C.Sys, w: C.Write, p: nat)
    ensures C.Judge(s, w, p).StartsPartial? || C.Judge(s, w, p).StartsWhole? ==> w.L !in s.cows
  {
    hide Shared, C.Whole;
  }

  lemma TrimQueued(s: C.Sys, w: C.Write)
    requires C.GoodWrite(s, w)
    ensures var t := C.MapTrim(s, w);
      QueuedStay(s, t) && t.lost == s.lost && t.batch == s.batch
  {
    hide Shared, QueuedStay;
    var t := C.MapTrim(s, w);
    if w.L in s.cows {
      CowWaits(s, t, w.L, s.cows[w.L].waiters + [w]);
    } else {
      CowsSame(s, t);
    }
  }

  lemma TrimDoubt(s: C.Sys, w: C.Write)
    requires I.ItemsOk(s) && C.GoodWrite(s, w)
    ensures C.InDoubt(C.MapTrim(s, w)) == C.InDoubt(s)
  {
    hide *;
    TrimQueued(s, w);
    SameDoubt(s, C.MapTrim(s, w));
  }

  lemma AllocQueued(s: C.Sys, L: nat, p: nat)
    requires C.CanAlloc(s, L, p)
    ensures var t := C.DoAlloc(s, L, p);
      QueuedStay(s, t) && t.lost == s.lost && t.batch == s.batch
  {
    hide C.Picks;
  }

  lemma AllocDoubt(s: C.Sys, L: nat, p: nat)
    requires I.ItemsOk(s) && C.CanAlloc(s, L, p)
    ensures C.InDoubt(C.DoAlloc(s, L, p)) == C.InDoubt(s)
  {
    hide *;
    AllocQueued(s, L, p);
    SameDoubt(s, C.DoAlloc(s, L, p));
  }

  lemma DataQueued(s: C.Sys, L: nat, ok: bool)
    requires C.CanFinishData(s, L)
    ensures var t := C.FinishData(s, L, ok);
      QueuedStay(s, t) && t.lost == s.lost && t.batch == s.batch
  {
    hide C.Overlay;
  }

  lemma DataDoubt(s: C.Sys, L: nat, ok: bool)
    requires I.ItemsOk(s) && C.CanFinishData(s, L)
    ensures C.InDoubt(C.FinishData(s, L, ok)) == C.InDoubt(s)
  {
    hide *;
    DataQueued(s, L, ok);
    SameDoubt(s, C.FinishData(s, L, ok));
  }

  lemma GatherDoubt(s: C.Sys)
    requires s.batch.Idle?
    ensures C.InDoubt(C.DoGather(s)) == C.InDoubt(s)
  {
    hide C.Kept, C.Redirs, C.FreshRows;
  }

  lemma FailDoubt(s: C.Sys)
    requires !s.batch.Idle?
    ensures C.InDoubt(C.DoFail(s)) == C.InDoubt(s)
  {
    hide C.Redirs, C.FreshRows, C.Ops;
  }

  lemma RestDoubt(s: C.Sys, t: C.Sys)
    requires t.cows == s.cows && t.lost == s.lost
    requires s.batch.Recording? == t.batch.Recording? && (s.batch.Recording? ==> t.batch == s.batch)
    ensures C.InDoubt(t) == C.InDoubt(s)
  {
  }

  lemma QueuedDoubt(s: C.Sys, c: C.Step)
    requires I.ItemsOk(s) && C.Can(s, c) && (c.Map? || c.Trim? || c.Alloc? || c.DataDone?)
    ensures C.InDoubt(C.Do(s, c)) == C.InDoubt(s)
  {
    hide I.ItemsOk, C.InDoubt, C.MapWrite, C.MapTrim, C.DoAlloc, C.FinishData, C.GoodWrite, C.Picks;
    hide C.CanAlloc, C.CanFinishData;
    match c {
      case Map(w, p) => MapDoubt(s, w, p);
      case Trim(w) => TrimDoubt(s, w);
      case Alloc(L, p) => AllocDoubt(s, L, p);
      case DataDone(L, ok) => DataDoubt(s, L, ok);
    }
  }

  lemma QuietDoubt(s: C.Sys, c: C.Step)
    requires C.Can(s, c) && !c.Record? && !c.Commit? && !c.PowerCut?
    requires !c.Map? && !c.Trim? && !c.Alloc? && !c.DataDone?
    ensures C.InDoubt(C.Do(s, c)) == C.InDoubt(s)
  {
    hide C.InDoubt, C.DoGather, C.DoFail, C.InFlight, C.CanIssue, C.Overlay;
    match c {
      case Gather => GatherDoubt(s);
      case Fail => FailDoubt(s);
      case Scribble(_, _) | PlaceDone(_) | Flush | Hold | Suspend | Issue(_) | Resume | Unhold =>
        RestDoubt(s, C.Do(s, c));
    }
  }

  lemma DoubtStays(s: C.Sys, c: C.Step)
    requires I.Inv(s) && C.Can(s, c) && !c.Record? && !c.Commit? && !c.PowerCut?
    ensures C.InDoubt(C.Do(s, c)) == C.InDoubt(s)
  {
    hide *;
    I.InvParts(s);
    if c.Map? || c.Trim? || c.Alloc? || c.DataDone? {
      QueuedDoubt(s, c);
    } else {
      QuietDoubt(s, c);
    }
  }

  lemma InvIs(j: Joint)
    requires Inv(j)
    ensures I.Inv(j.cow) && R.Inv(j.reg) && j.reg.core.st == j.cow.st && Flatten(j.going) == C.InDoubt(j.cow)
  {
    hide I.Inv, R.Inv, R.Allowed;
  }

  // ---- steps ------------------------------------------------------------------------------------------

  lemma UsedIsDone(reg: R.Sys, used: set<nat>)
    requires UsedCovers(reg.core.st.(used := used))
    ensures R.Next(reg, R.Done(R.Reserve(used), {}), Used(reg, used))
  {
    var t := Used(reg, used);
    assert t.disks == (map m | m in reg.disks && m !in {} :: DoAll(reg.disks[m], []));
    hide UsedCovers;
  }

  lemma UsedKeeps(reg: R.Sys, used: set<nat>)
    requires R.Inv(reg) && UsedCovers(reg.core.st.(used := used))
    ensures R.Inv(Used(reg, used))
  {
    hide *;
    UsedIsDone(reg, used);
    R.DoneKeeps(reg, R.Reserve(used), {}, Used(reg, used));
  }

  /** the records on their way apply */
  lemma GoingOk(s: C.Sys, going: seq<seq<Op>>)
    requires I.Inv(s) && Flatten(going) == C.InDoubt(s)
    ensures RecsOk(s.st, going) && OpsOk(s.st, C.InDoubt(s))
    ensures ApplyRecs(s.st, going) == ApplyAll(s.st, C.InDoubt(s))
  {
    hide *;
    F.InDoubtOk(s);
    BatchApplies(s.st, C.InDoubt(s));
    FlatApplies(s.st, going);
  }

  lemma StateCovers(s: C.Sys)
    requires I.Inv(s)
    ensures Coherent(s.st) && UsedCovers(s.st)
  {
    I.InvParts(s);
    hide I.Inv;
    CoherentParts(s.st);
    hide Coherent;
  }

  lemma AllowedStays(core: Core, st: St, going: seq<seq<Op>>)
    requires R.Allowed(core, R.Commit(going, false)) && RecsOk(st, going)
    ensures R.Allowed(core.(st := st), R.Commit(going, false))
  {
    hide RecsOk;
  }

  lemma UsedState(reg: R.Sys, s: C.Sys, t: C.Sys)
    requires reg.core.st == s.st && t.st == s.st.(used := t.st.used)
    ensures Used(reg, t.st.used).core == reg.core.(st := t.st) && reg.core.st.(used := t.st.used) == t.st
  {
  }

  lemma CowSt(s: C.Sys, c: C.Step)
    requires C.Can(s, c) && !c.Commit? && !c.PowerCut?
    ensures C.Do(s, c).st == s.st.(used := C.Do(s, c).st.used)
  {
    hide C.Can, C.Do;
    H.StillMaps(s, c);
  }

  lemma CowJoins(j: Joint, c: C.Step)
    requires Inv(j) && C.Can(j.cow, c) && !c.Record? && !c.Commit? && !c.PowerCut?
    ensures Inv(Joint(C.Do(j.cow, c), Used(j.reg, C.Do(j.cow, c).st.used), j.going))
  {
    var t := C.Do(j.cow, c);
    hide I.Inv, R.Inv, C.Can, C.Do, C.InDoubt, Flatten, Used, R.Allowed, UsedCovers;
    F.StepKeeps(j.cow, c);
    CowSt(j.cow, c);
    UsedState(j.reg, j.cow, t);
    StateCovers(t);
    UsedKeeps(j.reg, t.st.used);
    DoubtStays(j.cow, c);
    if j.going != [] {
      GoingOk(t, j.going);
      AllowedStays(j.reg.core, t.st, j.going);
    }
  }

  lemma RegionJoins(j: Joint, act: R.Act, lost: set<nat>, reg: R.Sys)
    requires Inv(j) && (act.Checkpoint? || act.Scrub?) && j.going == [] && R.Next(j.reg, R.Done(act, lost), reg)
    ensures Inv(Joint(j.cow, reg, []))
  {
    assert reg.core.st == j.reg.core.st;
    hide I.Inv, R.Inv, R.Next, C.InDoubt;
    R.DoneKeeps(j.reg, act, lost, reg);
  }

  lemma RecordJoins(j: Joint, recs: seq<seq<Op>>)
    requires Inv(j) && C.Can(j.cow, C.Record) && Flatten(recs) == C.Ops(j.cow.cows, j.cow.batch.items)
    requires recs != [] ==> R.Allowed(j.reg.core, R.Commit(recs, false))
    ensures Inv(Joint(C.Do(j.cow, C.Record), j.reg, recs))
  {
    var t := C.Do(j.cow, C.Record);
    assert t == j.cow.(batch := C.Recording(j.cow.batch.items)) && C.InDoubt(t) == C.Ops(j.cow.cows, j.cow.batch.items);
    hide I.Inv, R.Inv, C.Can, C.Do, C.InDoubt, Flatten, R.Allowed;
    F.StepKeeps(j.cow, C.Record);
  }

  lemma CommitSt(s: C.Sys)
    requires I.Inv(s) && C.Can(s, C.Commit)
    ensures C.InDoubt(s) == C.Ops(s.cows, s.batch.items) && OpsOk(s.st, C.InDoubt(s))
    ensures C.Do(s, C.Commit).st == ApplyAll(s.st, C.InDoubt(s)) && C.InDoubt(C.Do(s, C.Commit)) == []
  {
    I.InvParts(s);
    assert I.LostOk(s);
    hide I.Inv, C.Freeze, C.Ops, OpsOk, C.Redirs;
  }

  lemma {:induction false} LiveState(v: Live, recs: seq<seq<Op>>)
    requires RecsOk(v.st, recs)
    ensures LiveRecs(v, recs).st == ApplyRecs(v.st, recs)
    decreases |recs|
  {
    if recs != [] {
      LiveOpsState(v, recs[0]);
      hide LiveOps, ApplyAll, OpsOk;
      LiveState(LiveOps(v, recs[0]), recs[1..]);
    }
  }

  lemma CommitCore(core: Core, going: seq<seq<Op>>, data: bool)
    requires R.Allowed(core, R.Commit(going, data))
    ensures RecsOk(core.st, going) && R.After(core, R.Commit(going, data)).st == ApplyRecs(core.st, going)
  {
    assert CanCommit(core, going);
    LiveState(Live(core.st, core.rdirty), going);
    hide LiveRecs, RecsOk, ApplyRecs;
  }

  lemma NextDone(reg: R.Sys, act: R.Act, lost: set<nat>, t: R.Sys)
    requires R.Next(reg, R.Done(act, lost), t)
    ensures R.Allowed(reg.core, act) && t.core == R.After(reg.core, act)
  {
    hide R.Allowed, R.After;
  }

  lemma CommitJoins(j: Joint, data: bool, lost: set<nat>, reg: R.Sys)
    requires Inv(j) && C.Can(j.cow, C.Commit)
    requires if j.going == [] then reg == j.reg else R.Next(j.reg, R.Done(R.Commit(j.going, data), lost), reg)
    ensures Inv(Joint(C.Do(j.cow, C.Commit), reg, []))
  {
    CommitSt(j.cow);
    hide I.Inv, R.Inv, C.Can, C.Do, C.InDoubt, R.Next, R.Allowed, R.After;
    F.StepKeeps(j.cow, C.Commit);
    GoingOk(j.cow, j.going);
    if j.going != [] {
      NextDone(j.reg, R.Commit(j.going, data), lost, reg);
      CommitCore(j.reg.core, j.going, data);
      R.DoneKeeps(j.reg, R.Commit(j.going, data), lost, reg);
    }
  }

  // ---- power cuts ---------------------------------------------------------------------------------------

  /** what a load finds is settled, and of the same size */
  lemma LoadedState(reg: R.Sys, act: R.Act, n: nat, members: seq<nat>, imgs: seq<Image>)
    requires R.Inv(reg) && R.CanCut(reg, act, n, members, imgs)
    ensures Load(reg.core.st.R, imgs).Ok?
    ensures var core := Load(reg.core.st.R, imgs).value;
      && core.jhead <= |R.Issued(reg, act)| && R.StateIs(core.st, R.Issued(reg, act)[..core.jhead])
      && UsedCovers(core.st) && Settled(core.st) == core.st && core.st.R == reg.core.st.R && core.st.O == reg.core.st.O
  {
    hide *;
    var e := R.CutElects(reg, act, n, members, imgs);
    R.ElectedLoads(reg, act, imgs, e);
    var core := Load(reg.core.st.R, imgs).value;
    R.RecoveredState(reg, act, e, core);
    SameSize(reg, act, e, core);
    StateParts(core.st, R.Issued(reg, act)[..core.jhead]);
  }

  lemma SameSize(reg: R.Sys, act: R.Act, e: Per, core: Core)
    requires R.Electable(reg, act, e) && Recovered(e, core)
    ensures core.st.R == reg.core.st.R && core.st.O == reg.core.st.O
  {
    hide PerOk, RecsOk, ApplyRecs, AtRest, DirtyCovers;
  }

  lemma StateParts(st: St, hist: seq<seq<Op>>)
    requires R.StateIs(st, hist)
    ensures UsedCovers(st) && RecsOk(Fresh(st.R, st.O), hist) && Settled(st) == ApplyRecs(Fresh(st.R, st.O), hist)
  {
    hide UsedCovers, RecsOk, ApplyRecs, Settled;
  }

  /** from the state of all the records, by the next ones, to the state of more of them */
  lemma StateOn(st: St, hist: seq<seq<Op>>, more: seq<seq<Op>>, next: St)
    requires R.StateIs(st, hist) && R.StateIs(next, hist + more) && next.R == st.R && next.O == st.O
    ensures UsedCovers(st) && UsedCovers(next) && RecsOk(Settled(st), more)
    ensures Settled(next) == ApplyRecs(Settled(st), more)
  {
    StateParts(st, hist);
    StateParts(next, hist + more);
    RecsSplit(Fresh(st.R, st.O), hist, more);
    hide R.StateIs, UsedCovers, RecsOk, ApplyRecs, Settled, Fresh;
  }

  lemma DoubtPrefix(s: C.Sys, going: seq<seq<Op>>, m: nat)
    requires I.Inv(s) && Flatten(going) == C.InDoubt(s) && m <= |going|
    ensures var ops := Flatten(going[..m]);
      && |ops| <= |C.InDoubt(s)| && C.InDoubt(s)[..|ops|] == ops && OpsOk(s.st, ops)
      && UsedCovers(s.st) && RecsOk(Settled(s.st), going[..m])
      && UsedCovers(ApplyAll(s.st, ops)) && Settled(ApplyAll(s.st, ops)) == ApplyRecs(Settled(s.st), going[..m])
  {
    var ops := Flatten(going[..m]);
    assert going == going[..m] + going[m..];
    FlattenJoin(going[..m], going[m..]);
    assert (ops + Flatten(going[m..]))[..|ops|] == ops;
    hide *;
    F.InDoubtOk(s);
    F.PrefixOk(s.st, C.InDoubt(s), |ops|);
    BatchApplies(s.st, ops);
    StateCovers(s);
    SettledAll(s.st, ops);
    FlatApplies(Settled(s.st), going[..m]);
  }

  lemma BootedIsCut(s: C.Sys, k: nat, rows: map<nat, C.Row>, st: St)
    requires k <= |C.InDoubt(s)| && OpsOk(s.st, C.InDoubt(s)[..k]) && RowsLeft(s, rows)
    requires UsedCovers(ApplyAll(s.st, C.InDoubt(s)[..k])) && st == Settled(ApplyAll(s.st, C.InDoubt(s)[..k]))
    ensures C.Can(s, C.PowerCut(k, rows)) && C.Do(s, C.PowerCut(k, rows)) == Booted(s, st, rows)
  {
    hide C.InDoubt, OpsOk, ApplyAll, UsedCovers, Settled, C.Freeze;
  }

  lemma IssuedIs(j: Joint, act: R.Act)
    requires UnderWay(j, act)
    ensures R.Issued(j.reg, act) == j.reg.hist + j.going
  {
  }

  /** What a load makes of the bytes a power cut left is a state the copy-on-write machine may
      be in after it: the maps with a prefix of the batch in doubt applied. */
  lemma LoadIsCut(j: Joint, act: R.Act, n: nat, members: seq<nat>, imgs: seq<Image>, rows: map<nat, C.Row>)
    returns (k: nat)
    requires Inv(j) && UnderWay(j, act) && RowsLeft(j.cow, rows) && R.CanCut(j.reg, act, n, members, imgs)
    ensures Load(j.reg.core.st.R, imgs).Ok?
    ensures var core := Load(j.reg.core.st.R, imgs).value;
      |j.reg.hist| <= core.jhead ==>
        C.Can(j.cow, C.PowerCut(k, rows)) && C.Do(j.cow, C.PowerCut(k, rows)) == Booted(j.cow, core.st, rows)
  {
    hide *;
    var reg := j.reg;
    InvIs(j);
    LoadedState(reg, act, n, members, imgs);
    R.InvState(reg);
    IssuedIs(j, act);
    var core := Load(reg.core.st.R, imgs).value;
    k := 0;
    if |reg.hist| <= core.jhead {
      var m := core.jhead - |reg.hist|;
      assert (reg.hist + j.going)[..core.jhead] == reg.hist + j.going[..m];
      StateOn(j.cow.st, reg.hist, j.going[..m], core.st);
      DoubtPrefix(j.cow, j.going, m);
      k := |Flatten(j.going[..m])|;
      BootedIsCut(j.cow, k, rows, core.st);
    }
  }

  lemma CutIs(j: Joint, act: R.Act, n: nat, members: seq<nat>, imgs: seq<Image>, rows: map<nat, C.Row>, t: Joint)
    requires Next(j, PowerCut(act, n, members, imgs, rows), t)
    ensures UnderWay(j, act) && RowsLeft(j.cow, rows)
    ensures |members| == |imgs| && R.CanCut(j.reg, act, n, members, imgs)
    ensures R.Reloaded(j.reg, act, members, imgs, t.reg) && Load(j.reg.core.st.R, imgs) == Ok(t.reg.core)
    ensures t.cow == Booted(j.cow, t.reg.core.st, rows) && t.going == []
  {
    hide R.Allowed, R.Events, IsImage, R.NewHeader, Load, Booted;
  }

  lemma BootedQuiet(s: C.Sys, st: St, rows: map<nat, C.Row>)
    ensures Booted(s, st, rows).st == st && C.InDoubt(Booted(s, st, rows)) == [] && Flatten([]) == []
  {
    hide C.Freeze;
  }

  lemma InvOf(t: Joint)
    requires I.Inv(t.cow) && R.Inv(t.reg) && t.reg.core.st == t.cow.st && t.going == []
    requires Flatten([]) == C.InDoubt(t.cow)
    ensures Inv(t)
  {
    hide I.Inv, R.Inv;
  }

  lemma CutJoins(j: Joint, act: R.Act, n: nat, members: seq<nat>, imgs: seq<Image>, rows: map<nat, C.Row>, t: Joint)
    requires Inv(j) && Next(j, PowerCut(act, n, members, imgs, rows), t) && |j.reg.hist| <= t.reg.core.jhead
    ensures Inv(t) && IsRun(j.cow, t.cow)
  {
    hide *;
    InvIs(j);
    CutIs(j, act, n, members, imgs, rows, t);
    R.CutKeeps(j.reg, act, n, members, imgs, t.reg);
    var k := LoadIsCut(j, act, n, members, imgs, rows);
    F.StepKeeps(j.cow, C.PowerCut(k, rows));
    OneStep(j.cow, C.PowerCut(k, rows));
    BootedQuiet(j.cow, t.reg.core.st, rows);
    InvOf(t);
  }

  /** Every joint step keeps the two in step with each other, and is a run of the copy-on-write
      machine. */
  lemma StepJoins(j: Joint, step: Step, t: Joint)
    requires Inv(j) && Next(j, step, t) && Found(j, step, t)
    ensures Inv(t) && IsRun(j.cow, t.cow)
  {
    match step {
      case Cow(c) =>
        hide Inv, C.Can, C.Do, Used, IsRun;
        CowJoins(j, c);
        OneStep(j.cow, c);
      case Region(act, lost) =>
        hide Inv, IsRun, R.Next;
        RegionJoins(j, act, lost, t.reg);
        NoStep(j.cow);
        assert t == Joint(j.cow, t.reg, []);
      case Record(recs) =>
        hide Inv, C.Can, C.Do, IsRun, Flatten, R.Allowed, C.Ops;
        RecordJoins(j, recs);
        OneStep(j.cow, C.Record);
      case Commit(data, lost) =>
        hide Inv, C.Can, C.Do, IsRun, R.Next;
        CommitJoins(j, data, lost, t.reg);
        OneStep(j.cow, C.Commit);
        assert t == Joint(C.Do(j.cow, C.Commit), t.reg, []);
      case PowerCut(act, n, members, imgs, rows) =>
        hide Inv, Next, IsRun;
        CutJoins(j, act, n, members, imgs, rows, t);
    }
  }

  // ---- runs -----------------------------------------------------------------------------------------------

  ghost predicate Reaches(j: Joint, steps: seq<Step>, t: Joint)
    decreases |steps|
  {
    if steps == [] then t == j
    else exists u: Joint :: Next(j, steps[0], u) && Found(j, steps[0], u) && Reaches(u, steps[1..], t)
  }

  lemma {:induction false} RunsOn(s: C.Sys, a: seq<C.Step>, b: seq<C.Step>)
    requires H.CanRun(s, a) && H.CanRun(H.Run(s, a), b)
    ensures H.CanRun(s, a + b) && H.Run(s, a + b) == H.Run(H.Run(s, a), b)
    decreases |a|
  {
    hide C.Can, C.Do;
    if a == [] {
      assert a + b == b;
    } else {
      assert (a + b)[0] == a[0] && (a + b)[1..] == a[1..] + b;
      RunsOn(C.Do(s, a[0]), a[1..], b);
    }
  }

  lemma IsRunOn(s: C.Sys, u: C.Sys, t: C.Sys)
    requires IsRun(s, u) && IsRun(u, t)
    ensures IsRun(s, t)
  {
    hide H.CanRun, H.Run;
    var a :| H.CanRun(s, a) && H.Run(s, a) == u;
    var b :| H.CanRun(u, b) && H.Run(u, b) == t;
    RunsOn(s, a, b);
    assert H.CanRun(s, a + b) && H.Run(s, a + b) == t;
  }

  lemma {:induction false} RunJoins(j: Joint, steps: seq<Step>, t: Joint)
    requires Inv(j) && Reaches(j, steps, t)
    ensures Inv(t) && IsRun(j.cow, t.cow)
    decreases |steps|
  {
    hide Inv, Next, Found, IsRun;
    if steps == [] {
      NoStep(j.cow);
    } else {
      var u: Joint :| Next(j, steps[0], u) && Found(j, steps[0], u) && Reaches(u, steps[1..], t);
      StepJoins(j, steps[0], u);
      RunJoins(u, steps[1..], t);
      IsRunOn(j.cow, u.cow, t.cow);
    }
  }

  /** Through writes, COWs, commits, checkpoints, member losses and power cuts after which the
      maps are what a load built from the members' bytes: no snapshot changes. */
  lemma JointIsolates(j: Joint, steps: seq<Step>, t: Joint, id: nat)
    requires Inv(j) && Reaches(j, steps, t)
    requires id in C.ChainIds(j.cow.st.snaps) && id in C.ChainIds(t.cow.st.snaps)
    ensures H.Reads(t.cow, id) == H.Reads(j.cow, id)
  {
    hide Inv, Reaches, C.ChainIds, H.Reads, H.CanRun, H.Run, I.Inv;
    InvIs(j);
    RunJoins(j, steps, t);
    var cows :| H.CanRun(j.cow, cows) && H.Run(j.cow, cows) == t.cow;
    H.RunIsolates(j.cow, cows, id);
  }

  // ---- runs that lose no member ----------------------------------------------------------------------------

  /** A step that loses no member; of what a power cut leaves of them nothing is assumed. */
  ghost predicate Whole(j: Joint, step: Step, t: Joint) {
    match step
    case Cow(_) => Next(j, step, t)
    case Region(_, lost) => lost == {} && Next(j, step, t)
    case Record(_) => Next(j, step, t)
    case Commit(_, lost) => lost == {} && Next(j, step, t)
    case PowerCut(act, n, members, imgs, rows) =>
      && UnderWay(j, act) && RowsLeft(j.cow, rows)
      && R.Back(j.reg, act, n, members, imgs) && W.AllBack(j.reg, members)
      && R.Reloaded(j.reg, act, members, imgs, t.reg)
      && (forall i :: 0 <= i < |members| ==> members[i] in t.reg.disks)
      && t.cow == Booted(j.cow, t.reg.core.st, rows) && t.going == []
  }

  /** what such steps keep besides: a member with the newest header, and one for each record a
      load replayed */
  ghost predicate Kept(reg: R.Sys) {
    W.SomeHolds(reg) && Q.HeldBySome(reg) && Q.QuietUntil(reg)
  }

  lemma DoneKept(reg: R.Sys, act: R.Act, t: R.Sys)
    requires R.Inv(reg) && Kept(reg) && R.Next(reg, R.Done(act, {}), t)
    ensures Kept(t)
  {
    assert W.Step(true, reg, R.Done(act, {}), t);
    hide R.Inv, R.Next, W.Step, W.SomeHolds, Q.HeldBySome, Q.QuietUntil;
    W.StepHolds(true, reg, R.Done(act, {}), t);
    Q.DoneHeld(reg, act, t);
  }

  lemma CutKept(reg: R.Sys, act: R.Act, n: nat, members: seq<nat>, imgs: seq<Image>, t: R.Sys)
    requires R.Inv(reg) && Kept(reg) && R.Back(reg, act, n, members, imgs) && W.AllBack(reg, members)
    requires R.Reloaded(reg, act, members, imgs, t) && forall i :: 0 <= i < |members| ==> members[i] in t.disks
    ensures R.CanCut(reg, act, n, members, imgs) && Kept(t) && |reg.hist| <= t.core.jhead
  {
    hide R.Inv, R.Back, R.Reloaded, R.CanCut, W.AllBack, W.SomeHolds, W.HolderBack, Load;
    hide Q.HeldBySome, Q.QuietUntil, Q.Held;
    W.AllBackHolds(reg, members);
    W.HolderCuts(reg, act, n, members, imgs);
    W.CutHolds(reg, act, n, members, imgs, t);
    Q.AllBackHeld(reg, members);
    Q.HeldFound(reg, act, n, members, imgs);
    W.CutParts(reg, act, n, members, imgs);
    R.ReloadedCore(reg, act, members, imgs, t);
    Q.CutHeld(reg, act, n, members, imgs, t);
  }

  lemma UsedKept(reg: R.Sys, used: set<nat>)
    requires R.Inv(reg) && Kept(reg) && UsedCovers(reg.core.st.(used := used))
    ensures Kept(Used(reg, used))
  {
    hide R.Inv, Kept, UsedCovers, Used;
    UsedIsDone(reg, used);
    DoneKept(reg, R.Reserve(used), Used(reg, used));
  }

  lemma CowKept(j: Joint, c: C.Step)
    requires Inv(j) && Kept(j.reg) && C.Can(j.cow, c) && !c.Record? && !c.Commit? && !c.PowerCut?
    ensures Kept(Used(j.reg, C.Do(j.cow, c).st.used))
  {
    hide *;
    InvIs(j);
    F.StepKeeps(j.cow, c);
    CowSt(j.cow, c);
    UsedState(j.reg, j.cow, C.Do(j.cow, c));
    StateCovers(C.Do(j.cow, c));
    UsedKept(j.reg, C.Do(j.cow, c).st.used);
  }

  lemma WholeCut(j: Joint, act: R.Act, n: nat, members: seq<nat>, imgs: seq<Image>, rows: map<nat, C.Row>, t: Joint)
    requires Inv(j) && Kept(j.reg) && Whole(j, PowerCut(act, n, members, imgs, rows), t)
    ensures Next(j, PowerCut(act, n, members, imgs, rows), t) && Kept(t.reg) && |j.reg.hist| <= t.reg.core.jhead
  {
    InvIs(j);
    hide Inv, Kept, R.Back, R.Reloaded, R.CanCut, R.Inv, I.Inv, W.AllBack, Booted, UnderWay, RowsLeft;
    CutKept(j.reg, act, n, members, imgs, t.reg);
  }

  lemma WholeDone(j: Joint, act: R.Act, t: R.Sys)
    requires Inv(j) && Kept(j.reg) && R.Next(j.reg, R.Done(act, {}), t)
    ensures Kept(t)
  {
    InvIs(j);
    hide Inv, Kept, R.Next, R.Inv, I.Inv;
    DoneKept(j.reg, act, t);
  }

  /** Such a step needs no more said of its power cuts. */
  lemma WholeKeeps(j: Joint, step: Step, t: Joint)
    requires Inv(j) && Kept(j.reg) && Whole(j, step, t)
    ensures Next(j, step, t) && Found(j, step, t) && Kept(t.reg)
  {
    hide Inv, Kept, C.Can, C.Do, Used, R.Next, R.Back, R.Reloaded, R.CanCut, R.Allowed, C.Ops, Flatten;
    match step {
      case Cow(c) => CowKept(j, c);
      case Region(act, lost) => WholeDone(j, act, t.reg);
      case Record(recs) =>
      case Commit(data, lost) =>
        if j.going != [] {
          WholeDone(j, R.Commit(j.going, data), t.reg);
        }
      case PowerCut(act, n, members, imgs, rows) =>
        hide Whole, Next;
        WholeCut(j, act, n, members, imgs, rows, t);
    }
  }

  ghost predicate WholeRun(j: Joint, steps: seq<Step>, t: Joint)
    decreases |steps|
  {
    if steps == [] then t == j
    else exists u: Joint :: Whole(j, steps[0], u) && WholeRun(u, steps[1..], t)
  }

  lemma {:induction false} WholeRunKeeps(j: Joint, steps: seq<Step>, t: Joint)
    requires Inv(j) && Kept(j.reg) && WholeRun(j, steps, t)
    ensures Reaches(j, steps, t) && Inv(t) && Kept(t.reg)
    decreases |steps|
  {
    hide Inv, Kept, Whole, Next, Found, IsRun;
    if steps != [] {
      var u: Joint :| Whole(j, steps[0], u) && WholeRun(u, steps[1..], t);
      WholeKeeps(j, steps[0], u);
      StepJoins(j, steps[0], u);
      WholeRunKeeps(u, steps[1..], t);
    }
  }

  /** a new array, assembled for the first time */
  ghost predicate Assembled(R0: nat, pct: nat, rs: nat, slots: nat, rows: map<nat, C.Row>, j: Joint) {
    && R.Made(R0, pct, j.reg) && j.going == [] && slots > 0
    && (forall P: nat :: P in rows <==> P < j.reg.core.st.R) && (forall P :: P in rows ==> |rows[P]| == rs)
    && j.cow == H.Boot(rs, slots, j.reg.core.st, rows)
  }

  lemma MadeAtRest(R0: nat, pct: nat, reg: R.Sys)
    requires R.Made(R0, pct, reg)
    ensures AtRest(reg.core.st) && reg.acked == |reg.hist|
  {
    R.MadePerOk(R0, pct);
    R.MadeBase(R0, pct);
    hide PerOk, Stored, HasHdr, Load, R.MadePer, R.Blank;
    assert AllStored(R.MadePer(R0, pct), [R.Blank(pct)]);
    assert HasHdr(R.MadePer(R0, pct), [R.Blank(pct)][0]);
    LoadRecovers(R.MadePer(R0, pct), [R.Blank(pct)], 0);
    RecoveredRest(R.MadePer(R0, pct), reg.core);
  }

  lemma RecoveredRest(e: Per, core: Core)
    requires PerOk(e) && Recovered(e, core)
    ensures AtRest(core.st)
  {
    hide PerOk, AtRest, RecsOk, ApplyRecs, DirtyCovers;
  }

  lemma BootQuiet(rs: nat, slots: nat, st: St, rows: map<nat, C.Row>)
    ensures H.Boot(rs, slots, st, rows).st == st && C.InDoubt(H.Boot(rs, slots, st, rows)) == [] && Flatten([]) == []
  {
    hide C.Freeze;
  }

  lemma NoneLate(reg: R.Sys)
    requires reg.acked == |reg.hist|
    ensures Q.HeldBySome(reg) && Q.QuietUntil(reg)
  {
    assert forall q: nat :: !Q.Late(reg, q);
  }

  lemma AssembledInv(R0: nat, pct: nat, rs: nat, slots: nat, rows: map<nat, C.Row>, j: Joint)
    requires Assembled(R0, pct, rs, slots, rows, j)
    ensures Inv(j) && Kept(j.reg)
  {
    hide R.Made, H.Boot, R.Inv, I.Inv, AtRest, W.SomeHolds, Q.HeldBySome, Q.QuietUntil, C.InDoubt, Flatten;
    R.MadeInv(R0, pct, j.reg);
    W.MadeHolds(R0, pct, j.reg);
    MadeAtRest(R0, pct, j.reg);
    NoneLate(j.reg);
    H.BootInv(rs, slots, j.reg.core.st, rows);
    BootQuiet(rs, slots, j.reg.core.st, rows);
  }

  /** Snapshot isolation down to the bytes on the members.  From the first assembly of an array
      that loses no member, through writes, COWs, creates, destroys, commits, checkpoints and
      any number of power cuts at any event, each followed by a load from whatever it left:
      between two moments at which a snapshot exists, nothing it reads has changed. */
  lemma SnapshotsSurvive(R0: nat, pct: nat, rs: nat, slots: nat, rows: map<nat, C.Row>, start: Joint, before: seq<Step>,
                         j: Joint, after: seq<Step>, t: Joint, id: nat)
    requires Assembled(R0, pct, rs, slots, rows, start)
    requires WholeRun(start, before, j) && WholeRun(j, after, t)
    requires id in C.ChainIds(j.cow.st.snaps) && id in C.ChainIds(t.cow.st.snaps)
    ensures H.Reads(t.cow, id) == H.Reads(j.cow, id)
    ensures R.StateIs(t.cow.st, t.reg.hist)
  {
    hide *;
    AssembledInv(R0, pct, rs, slots, rows, start);
    WholeRunKeeps(start, before, j);
    WholeRunKeeps(j, after, t);
    JointIsolates(j, after, t, id);
    InvIs(t);
    R.InvState(t.reg);
  }
}
