/** What the COW machine is for, over whole runs: snapshot isolation, COWs that are the write
    they stand for, power cuts that leave every origin row whole. */
module SnapHistory {
  import opened SnapState
  import opened SnapWalk
  import opened SnapDerive
  import opened SnapStored
  import opened SnapPrivate
  import opened SnapCow
  import opened SnapIsolation
  import opened SnapFrozen

  // ---- isolation, step by step ------------------------------------------------------------

  lemma SameMapsFollows(s: Sys, t: Sys)
    requires SameMaps(s, t)
    ensures Follows(s.st, t.st)
  {
    forall i | 0 <= i < |t.st.snaps| ensures t.st.snaps[i].id >= s.st.nextId || exists k :: SameReads(s.st, t.st, k, i) {
      forall L | 0 <= L < |s.st.origin| ensures Walk(t.st, i, L) == Walk(s.st, i, L) {
        SameMapsWalk(s.st, t.st.used, i, L);
      }
      assert SameReads(s.st, t.st, i, i);
    }
  }

  /** only commits and power cuts change the maps */
  predicate Still(step: Step) {
    !step.Commit? && !step.PowerCut?
  }

  lemma OverStill(s: Sys, u: Sys, Ls: set<nat>)
    requires SameMaps(s, u)
    ensures SameMaps(s, Over(u, Ls)) && Over(u, Ls).frozen == u.frozen
  {
  }

  lemma MapStill(s: Sys, w: Write, p: nat)
    requires GoodWrite(s, w)
    ensures SameMaps(s, MapWrite(s, w, p)) && MapWrite(s, w, p).frozen == s.frozen
  {
    assert w.L < |s.st.origin|;
    hide Judge, GoodWrite;
    match Judge(s, w, p) {
      case InPlace =>
      case StartsWhole =>
      case StartsPartial =>
      case Waits =>
      case _ =>
    }
  }

  lemma TrimStill(s: Sys, w: Write)
    requires GoodWrite(s, w)
    ensures SameMaps(s, MapTrim(s, w)) && MapTrim(s, w).frozen == s.frozen
  {
    hide Shared;
  }

  lemma AllocStill(s: Sys, L: nat, p: nat)
    requires CanAlloc(s, L, p)
    ensures SameMaps(s, DoAlloc(s, L, p)) && DoAlloc(s, L, p).frozen == s.frozen
  {
    OverStill(s, s, {L});
    hide Over;
  }

  lemma GatherStill(s: Sys)
    ensures SameMaps(s, DoGather(s)) && DoGather(s).frozen == s.frozen
  {
    hide Kept, Redirs, FreshRows;
  }

  lemma FailStill(s: Sys)
    requires !s.batch.Idle?
    ensures SameMaps(s, DoFail(s)) && DoFail(s).frozen == s.frozen
  {
    hide Redirs, FreshRows, Ops;
  }

  lemma DataStill(s: Sys, L: nat, ok: bool)
    requires CanFinishData(s, L)
    ensures SameMaps(s, FinishData(s, L, ok)) && FinishData(s, L, ok).frozen == s.frozen
  {
  }

  lemma SameStMaps(s: Sys, t: Sys)
    requires t.st == s.st && t.rs == s.rs && t.slots == s.slots
    ensures SameMaps(s, t)
  {
  }

  lemma StillMaps(s: Sys, step: Step)
    requires Can(s, step) && Still(step)
    ensures SameMaps(s, Do(s, step)) && Do(s, step).frozen == s.frozen
  {
    hide MapWrite, MapTrim, DoAlloc, FinishData, DoGather, DoFail, InFlight, CanIssue, SameMaps;
    match step {
      case Map(w, p) => MapStill(s, w, p);
      case Alloc(L, p) => AllocStill(s, L, p);
      case Trim(w) => TrimStill(s, w);
      case DataDone(L, ok) => DataStill(s, L, ok);
      case Gather => GatherStill(s);
      case Fail => FailStill(s);
      case Scribble(_, _) | PlaceDone(_) | Flush | Record | Hold | Suspend | Issue(_) | Resume | Unhold =>
        SameStMaps(s, Do(s, step));
    }
  }

  lemma CommitFollows(s: Sys)
    requires Inv(s) && CanCommit(s)
    ensures Follows(s.st, DoCommit(s).st)
  {
    InvParts(s);
    BatchItemsOk(s);
    hide Inv, RowsWhole, Freeze, Coherent, OpsOk, BatchOk;
    BatchFollows(s.st, Ops(s.cows, s.batch.items));
  }

  lemma CutFollows(s: Sys, k: nat, rows: map<nat, Row>)
    requires Inv(s) && CanCut(s, k, rows)
    ensures Follows(s.st, DoCut(s, k, rows).st)
  {
    InDoubtOk(s);
    PrefixOk(s.st, InDoubt(s), k);
    var ops := InDoubt(s)[..k];
    hide Inv, Freeze, InDoubt, BatchOk, Follows;
    BatchApplies(s.st, ops);
    BatchFollows(s.st, ops);
    CoherentParts(ApplyAll(s.st, ops));
    hide Coherent, Settled, OpsOk;
    SettledFollows(ApplyAll(s.st, ops));
    FollowsTwice(s.st, ApplyAll(s.st, ops), DoCut(s, k, rows).st);
  }

  lemma StepFollows(s: Sys, step: Step)
    requires Inv(s) && Can(s, step)
    ensures Follows(s.st, Do(s, step).st)
  {
    hide Inv, Follows, DoCommit, DoCut, CanCut, CanCommit;
    match step {
      case Commit => CommitFollows(s);
      case PowerCut(k, rows) => CutFollows(s, k, rows);
      case _ =>
        StillMaps(s, step);
        SameMapsFollows(s, Do(s, step));
    }
  }

  lemma FreezeOld(before: seq<Snap>, frozen: map<nat, seq<Row>>, st: St, rows: map<nat, Row>, id: nat)
    requires id in ChainIds(before) && id in ChainIds(st.snaps) && id in frozen
    ensures id in Freeze(before, frozen, st, rows) && Freeze(before, frozen, st, rows)[id] == frozen[id]
  {
  }

  lemma FrozenStays(s: Sys, step: Step, id: nat)
    requires Inv(s) && Can(s, step) && id in s.frozen
    requires id in ChainIds(s.st.snaps) && id in ChainIds(Do(s, step).st.snaps)
    ensures id in Do(s, step).frozen && Do(s, step).frozen[id] == s.frozen[id]
  {
    hide Inv, Freeze, OpsOk, Settled, InFlight, FreshRows, MapWrite, MapTrim, DoAlloc, FinishData, DoGather, DoFail;
    match step {
      case Commit => FreezeOld(s.st.snaps, s.frozen, Do(s, step).st, s.rows, id);
      case PowerCut(k, rows) => FreezeOld(s.st.snaps, s.frozen, Do(s, step).st, rows, id);
      case _ => StillMaps(s, step);
    }
  }

  /** what snapshot id reads, all of it */
  ghost function Reads(s: Sys, id: nat): seq<Row>
    requires id in ChainIds(s.st.snaps)
  {
    Contents(s.st, s.rows, PositionOf(s.st.snaps, id))
  }

  lemma ReadsFrozen(s: Sys, id: nat)
    requires Inv(s) && id in ChainIds(s.st.snaps)
    ensures id in s.frozen && Reads(s, id) == s.frozen[id]
  {
    InvParts(s);
    var k := PositionOf(s.st.snaps, id);
    hide Inv, Contents;
  }

  /** Snapshot isolation: no step -- an origin write in place, a COW whole or partial, a
      discard, a create, the destroy of another snapshot, a failed commit, a power cut --
      changes what a snapshot reads. */
  lemma StepIsolates(s: Sys, step: Step, id: nat)
    requires Inv(s) && Can(s, step)
    requires id in ChainIds(s.st.snaps) && id in ChainIds(Do(s, step).st.snaps)
    ensures Reads(Do(s, step), id) == Reads(s, id)
  {
    hide *;
    StepKeeps(s, step);
    ReadsFrozen(s, id);
    FrozenStays(s, step, id);
    ReadsFrozen(Do(s, step), id);
  }

  // ---- over runs --------------------------------------------------------------------------------

  ghost predicate CanRun(s: Sys, steps: seq<Step>)
    decreases |steps|
  {
    steps == [] || (Can(s, steps[0]) && CanRun(Do(s, steps[0]), steps[1..]))
  }

  ghost function Run(s: Sys, steps: seq<Step>): Sys
    requires CanRun(s, steps)
    decreases |steps|
  {
    if steps == [] then s else Run(Do(s, steps[0]), steps[1..])
  }

  lemma {:induction false} RunKeeps(s: Sys, steps: seq<Step>)
    requires Inv(s) && CanRun(s, steps)
    ensures Inv(Run(s, steps))
    decreases |steps|
  {
    if steps != [] {
      hide Inv, Can, Do;
      StepKeeps(s, steps[0]);
      RunKeeps(Do(s, steps[0]), steps[1..]);
    }
  }

  lemma FollowsIds(st: St, t: St, id: nat)
    requires Follows(st, t) && id < st.nextId && id !in ChainIds(st.snaps)
    ensures id < t.nextId && id !in ChainIds(t.snaps)
  {
    forall k' | 0 <= k' < |t.snaps| ensures t.snaps[k'].id != id {
      if t.snaps[k'].id < st.nextId {
        var k: nat :| SameReads(st, t, k, k');
        SameReadsIds(st, t, k, k');
      }
    }
  }

  /** a destroyed snapshot's id does not come back */
  lemma {:induction false} IdStaysGone(s: Sys, steps: seq<Step>, id: nat)
    requires Inv(s) && CanRun(s, steps) && id < s.st.nextId && id !in ChainIds(s.st.snaps)
    ensures id !in ChainIds(Run(s, steps).st.snaps)
    decreases |steps|
  {
    if steps != [] {
      hide Inv, Can, Do, Follows, ChainIds;
      StepKeeps(s, steps[0]);
      StepFollows(s, steps[0]);
      FollowsIds(s.st, Do(s, steps[0]).st, id);
      IdStaysGone(Do(s, steps[0]), steps[1..], id);
    }
  }

  lemma IdKnown(s: Sys, id: nat)
    requires Inv(s) && id in ChainIds(s.st.snaps)
    ensures id < s.st.nextId
  {
    InvParts(s);
    hide Inv;
    CoherentParts(s.st);
    IdsBelow(s.st.snaps, s.st.nextId);
  }

  lemma NextIdGrows(s: Sys, step: Step)
    requires Inv(s) && Can(s, step)
    ensures Do(s, step).st.nextId >= s.st.nextId
  {
    StepFollows(s, step);
    hide Inv, Can, Do;
  }

  /** Whatever runs, a snapshot reads at the end of it what it read at its start. */
  lemma {:induction false} RunIsolates(s: Sys, steps: seq<Step>, id: nat)
    requires Inv(s) && CanRun(s, steps)
    requires id in ChainIds(s.st.snaps) && id in ChainIds(Run(s, steps).st.snaps)
    ensures Reads(Run(s, steps), id) == Reads(s, id)
    decreases |steps|
  {
    if steps != [] {
      hide Inv, Can, Do, ChainIds, Reads;
      var t := Do(s, steps[0]);
      StepKeeps(s, steps[0]);
      if id in ChainIds(t.st.snaps) {
        StepIsolates(s, steps[0], id);
        RunIsolates(t, steps[1..], id);
      } else {
        IdKnown(s, id);
        NextIdGrows(s, steps[0]);
        IdStaysGone(t, steps[1..], id);
        assert false;
      }
    }
  }

  // ---- creates ---------------------------------------------------------------------------------------

  /** what the origin reads */
  ghost function OriginRow(s: Sys, L: nat): Row
    requires L < |s.st.origin|
  {
    if s.st.origin[L] in s.rows then s.rows[s.st.origin[L]] else []
  }

  ghost function OriginReads(s: Sys): seq<Row> {
    seq(|s.st.origin|, L requires 0 <= L < |s.st.origin| => OriginRow(s, L))
  }

  lemma CreatedContents(s: Sys, op: Op, st: St)
    requires op.Create? && st == ApplyCreate(s.st, op.slot, op.id, op.ctime, op.name, op.attrs)
    ensures |st.snaps| == |s.st.snaps| + 1 && st.snaps[|s.st.snaps|].id == op.id
    ensures Contents(st, s.rows, |s.st.snaps|) == OriginReads(s)
  {
    var n := |s.st.snaps|;
    assert st.origin == s.st.origin;
    hide Walk;
    forall L | 0 <= L < |s.st.origin| ensures Walk(st, n, L) == s.st.origin[L] {
      CreatedWalk(s.st, op.slot, op.id, op.ctime, op.name, op.attrs, L);
    }
  }

  lemma CommitOne(s: Sys, op: Op)
    requires CanCommit(s) && s.batch.items == [Cmd(op)] && op.Create?
    ensures DoCommit(s).st == ApplyCreate(s.st, op.slot, op.id, op.ctime, op.name, op.attrs)
    ensures DoCommit(s).rows == s.rows
  {
    var ops := Ops(s.cows, s.batch.items);
    assert ops == [op] && ops[1..] == [];
    hide Freeze, Redirs;
    assert OpsOk(s.st, ops) && OpOk(s.st, op) && Applicable(s.st, op);
    assert ApplyAll(s.st, ops) == ApplyAll(Apply(s.st, op), ops[1..]) == Apply(s.st, op);
  }

  lemma IdPosition(s: Sys, k: nat)
    requires Inv(s) && k < |s.st.snaps|
    ensures s.st.snaps[k].id in ChainIds(s.st.snaps) && PositionOf(s.st.snaps, s.st.snaps[k].id) == k
  {
    InvParts(s);
    hide Inv;
    CoherentParts(s.st);
    hide Coherent;
    ChainPosition(s.st.snaps, s.st.nextId, k);
  }

  /** A new snapshot reads the origin as it is at its create. */
  lemma CreateReadsOrigin(s: Sys, op: Op)
    requires Inv(s) && CanCommit(s) && s.batch.items == [Cmd(op)] && op.Create?
    ensures op.id in ChainIds(DoCommit(s).st.snaps) && Reads(DoCommit(s), op.id) == OriginReads(s)
  {
    assert Reads(DoCommit(s), op.id) == Contents(DoCommit(s).st, DoCommit(s).rows, PositionOf(DoCommit(s).st.snaps, op.id))
      by { CreatedId(s, op); }
    hide *;
    CommitsKeeps(s);
    CommitOne(s, op);
    CreatedContents(s, op, DoCommit(s).st);
    IdPosition(DoCommit(s), |s.st.snaps|);
  }

  lemma CreatedId(s: Sys, op: Op)
    requires Inv(s) && CanCommit(s) && s.batch.items == [Cmd(op)] && op.Create?
    ensures op.id in ChainIds(DoCommit(s).st.snaps)
  {
    hide *;
    CommitsKeeps(s);
    CommitOne(s, op);
    CreatedContents(s, op, DoCommit(s).st);
    IdPosition(DoCommit(s), |s.st.snaps|);
  }

  // ---- commits and power cuts, seen from the origin ---------------------------------------------------

  /** the commit applies what it wrote: every redirect finds its row as it left it */
  lemma CommitEnabled(s: Sys)
    requires Inv(s) && s.batch.Recording?
    ensures CanCommit(s)
  {
    InvParts(s);
    BatchItemsOk(s);
    NotBroken(s);
    hide Inv, RowsWhole, BatchOk;
    BatchApplies(s.st, Ops(s.cows, s.batch.items));
  }

  lemma NotBroken(s: Sys)
    requires LostOk(s) && s.batch.Recording?
    ensures !s.broken
  {
    hide BatchOk;
  }

  predicate Redirects(ops: seq<Op>, L: nat) {
    exists i :: 0 <= i < |ops| && ops[i].Redirect? && ops[i].L == L
  }

  lemma OpOrigin(st: St, op: Op, L: nat)
    requires Coherent(st) && OpOk(st, op) && Applicable(st, op) && L < |st.origin|
    ensures var s := Apply(st, op);
      |s.origin| == |st.origin| && s.origin[L] == if op.Redirect? && op.L == L then op.newP else st.origin[L]
  {
    if op.Destroy? {
      DestroyLeaves(st, op.slot);
      assert Destroyed(st, ApplyDestroy(st, op.slot), IndexOf(st.snaps, op.slot));
      hide ApplyDestroy, Coherent;
    } else {
      hide Coherent, Owner, RmapSet;
    }
  }

  /** the origin's row after a batch: the redirect's new one, or the one it was */
  ghost predicate OriginIs(st: St, ops: seq<Op>, L: nat, P: nat)
    requires L < |st.origin|
  {
    if Redirects(ops, L) then exists i :: 0 <= i < |ops| && ops[i].Redirect? && ops[i].L == L && ops[i].newP == P
    else P == st.origin[L]
  }

  lemma OriginStep(st: St, ops: seq<Op>, L: nat, P: nat)
    requires BatchOk(st, ops) && ops != [] && L < |st.origin| && Applicable(st, ops[0])
    requires var s := Apply(st, ops[0]);
      |s.origin| == |st.origin|
      && s.origin[L] == (if ops[0].Redirect? && ops[0].L == L then ops[0].newP else st.origin[L])
      && OriginIs(s, ops[1..], L, P)
    ensures OriginIs(st, ops, L, P)
  {
    hide OpOk, Apply, Applicable;
    forall i | 0 <= i < |ops[1..]| ensures ops[1..][i] == ops[i + 1] && Independent(ops[0], ops[i + 1]) {
    }
    forall i | 0 < i < |ops| ensures ops[i] == ops[1..][i - 1] {
    }
    if Redirects(ops[1..], L) {
      var i :| 0 <= i < |ops[1..]| && ops[1..][i].Redirect? && ops[1..][i].L == L && ops[1..][i].newP == P;
      assert ops[i + 1].Redirect? && ops[i + 1].L == L && ops[i + 1].newP == P;
    } else if ops[0].Redirect? && ops[0].L == L {
      assert Redirects(ops, L);
    }
  }

  lemma {:induction false} BatchOrigin(st: St, ops: seq<Op>, L: nat)
    requires Coherent(st) && BatchOk(st, ops) && L < |st.origin|
    ensures OpsOk(st, ops) && |ApplyAll(st, ops).origin| == |st.origin|
    ensures OriginIs(st, ops, L, ApplyAll(st, ops).origin[L])
    decreases |ops|
  {
    BatchApplies(st, ops);
    if ops != [] {
      BatchStep(st, ops);
      hide Coherent, OpOk, Apply, Applicable, BatchOk, OriginIs;
      OpOrigin(st, ops[0], L);
      BatchOrigin(Apply(st, ops[0]), ops[1..], L);
      OriginStep(st, ops, L, ApplyAll(st, ops).origin[L]);
    }
  }

  lemma RedirectIs(s: Sys, ops: seq<Op>, L: nat, i: nat)
    requires Inv(s) && s.batch.Recording? && ops == Ops(s.cows, s.batch.items)
    requires i < |ops| && ops[i].Redirect? && ops[i].L == L
    ensures L in s.cows && L < |s.st.origin| && s.cows[L].w.L == L && ops[i].newP in s.rows && ops[i].newP !in s.dirty
    ensures |OriginRow(s, L)| == s.rs && s.cows[L].w.off + |s.cows[L].w.data| <= s.rs
    ensures s.rows[ops[i].newP] == Overlay(OriginRow(s, L), s.cows[L].w)
  {
    InvParts(s);
    BatchItem(s, i);
    var item := s.batch.items[i];
    assert item == Redir(L) && !Failed(s, item);
    hide Inv, ItemsOk;
    CowAt(s, L);
    NewRowFree(s, L);
    hide CowsOk, Coherent, Shared, Owner;
  }

  /** a COW's redirect, in the batch: its row is flushed and holds the old row with the write
      over it */
  lemma RedirectHolds(s: Sys, ops: seq<Op>, L: nat, i: nat)
    requires Inv(s) && s.batch.Recording? && ops == Ops(s.cows, s.batch.items)
    requires i < |ops| && ops[i].Redirect? && ops[i].L == L
    ensures L in s.cows && L < |s.st.origin| && s.cows[L].w.L == L && ops[i].newP in s.rows && ops[i].newP !in s.dirty
    ensures |OriginRow(s, L)| == s.rs && s.cows[L].w.off + |s.cows[L].w.data| <= s.rs
    ensures var w, now := s.cows[L].w, s.rows[ops[i].newP];
      && |now| == s.rs
      && forall x :: 0 <= x < s.rs ==>
           now[x] == if w.off <= x < w.off + |w.data| then w.data[x - w.off] else OriginRow(s, L)[x]
  {
    hide *;
    RedirectIs(s, ops, L, i);
    OverlayAt(OriginRow(s, L), s.cows[L].w);
  }

  /** A commit makes of each COW in it the write it stands for, and changes no other row of
      the origin. */
  lemma CommitWrites(s: Sys, L: nat)
    requires Inv(s) && CanCommit(s) && L < |s.st.origin|
    ensures |DoCommit(s).st.origin| == |s.st.origin|
    ensures var t := DoCommit(s);
      if Redir(L) in s.batch.items
      then L in s.cows && |OriginRow(t, L)| == |OriginRow(s, L)| == s.rs
           && var w := s.cows[L].w;
              forall x :: 0 <= x < s.rs ==>
                OriginRow(t, L)[x] == if w.off <= x < w.off + |w.data| then w.data[x - w.off] else OriginRow(s, L)[x]
      else OriginRow(t, L) == OriginRow(s, L)
  {
    var t := DoCommit(s);
    var ops := Ops(s.cows, s.batch.items);
    assert t.st == ApplyAll(s.st, ops) && t.rows == s.rows;
    InvParts(s);
    BatchItemsOk(s);
    hide Inv, DoCommit, Coherent, BatchOk, OpsOk, RowsWhole;
    BatchOrigin(s.st, ops, L);
    assert Redirects(ops, L) ==> Redir(L) in s.batch.items by { RedirectsQueued(s, L); }
    if Redir(L) in s.batch.items {
      var k :| 0 <= k < |s.batch.items| && s.batch.items[k] == Redir(L);
      BatchItem(s, k);
      assert ops[k].Redirect? && ops[k].L == L;
      var i :| 0 <= i < |ops| && ops[i].Redirect? && ops[i].L == L && ops[i].newP == t.st.origin[L];
      RedirectHolds(s, ops, L, i);
    }
  }

  lemma PlaceIs(s: Sys, id: nat)
    requires Inv(s) && Can(s, PlaceDone(id))
    ensures var w, t := s.ios[id].w, Do(s, PlaceDone(id));
      && t.st == s.st && w.L < |s.st.origin| && s.st.origin[w.L] in s.rows
      && |OriginRow(s, w.L)| == s.rs && w.off + |w.data| <= s.rs
      && t.rows == s.rows[s.st.origin[w.L] := Overlay(OriginRow(s, w.L), w)]
  {
    var io := s.ios[id];
    InvParts(s);
    assert IoOk(s, io);
    FlushedRow(s, io.w.L);
    hide Inv, Coherent, Overlay, Shared;
  }

  /** An in-place write that ends has put its sectors into the origin's row, and no other row,
      and no other sector of this one, is touched. */
  lemma PlaceWrites(s: Sys, id: nat)
    requires Inv(s) && Can(s, PlaceDone(id))
    ensures var w, t := s.ios[id].w, Do(s, PlaceDone(id));
      && t.st == s.st && w.L < |s.st.origin|
      && |OriginRow(t, w.L)| == |OriginRow(s, w.L)| == s.rs
      && (forall x :: 0 <= x < s.rs ==>
           OriginRow(t, w.L)[x] == if w.off <= x < w.off + |w.data| then w.data[x - w.off] else OriginRow(s, w.L)[x])
      && forall P :: P in s.rows && P != s.st.origin[w.L] ==> P in t.rows && t.rows[P] == s.rows[P]
  {
    PlaceIs(s, id);
    hide Inv, Do, Can, Overlay;
    OverlayAt(OriginRow(s, s.ios[id].w.L), s.ios[id].w);
  }

  lemma RedirectsQueued(s: Sys, L: nat)
    requires ItemsOk(s) && !s.batch.Idle?
    ensures Redirects(Ops(s.cows, s.batch.items), L) ==> Redir(L) in s.batch.items
  {
    if Redirects(Ops(s.cows, s.batch.items), L) {
      var i :| 0 <= i < |s.batch.items| && Ops(s.cows, s.batch.items)[i].Redirect? && Ops(s.cows, s.batch.items)[i].L == L;
      BatchItem(s, i);
      hide OpOk;
    }
  }

  lemma CutIs(s: Sys, k: nat, rows: map<nat, Row>)
    requires CanCut(s, k, rows) && s.batch.Recording?
    ensures k <= |s.batch.items| && OpsOk(s.st, Ops(s.cows, s.batch.items)[..k])
    ensures DoCut(s, k, rows).rows == rows
    ensures DoCut(s, k, rows).st.origin == ApplyAll(s.st, Ops(s.cows, s.batch.items)[..k]).origin
  {
    hide Freeze, OpsOk, OwnedRows;
  }

  lemma FlushedRow(s: Sys, L: nat)
    requires Inv(s) && L < |s.st.origin|
    ensures s.st.origin[L] in s.rows
  {
    InvParts(s);
    hide Inv;
    CoherentParts(s.st);
  }

  /** what the COW of L leaves: its write, sector by sector, over the old row */
  ghost predicate Overlaid(s: Sys, L: nat, row: Row)
    requires L < |s.st.origin|
  {
    && L in s.cows && |row| == |OriginRow(s, L)|
    && var w := s.cows[L].w;
       forall x :: 0 <= x < |row| ==>
         row[x] == if w.off <= x < w.off + |w.data| then w.data[x - w.off] else OriginRow(s, L)[x]
  }

  lemma RedirectOverlays(s: Sys, ops: seq<Op>, L: nat, i: nat)
    requires Inv(s) && s.batch.Recording? && ops == Ops(s.cows, s.batch.items)
    requires i < |ops| && ops[i].Redirect? && ops[i].L == L
    ensures L < |s.st.origin| && ops[i].newP in s.rows && ops[i].newP !in s.dirty
    ensures Overlaid(s, L, s.rows[ops[i].newP])
  {
    RedirectHolds(s, ops, L, i);
    hide Inv, Ops, OriginRow;
  }

  lemma RedirectWritten(s: Sys, n: nat, L: nat, P: nat)
    requires Inv(s) && s.batch.Recording? && n <= |s.batch.items| && L < |s.st.origin|
    requires Redirects(Ops(s.cows, s.batch.items)[..n], L) && OriginIs(s.st, Ops(s.cows, s.batch.items)[..n], L, P)
    ensures P in s.rows && P !in s.dirty && Overlaid(s, L, s.rows[P]) && Redir(L) in s.batch.items
  {
    var all := Ops(s.cows, s.batch.items);
    var ops := all[..n];
    var i :| 0 <= i < |ops| && ops[i].Redirect? && ops[i].L == L && ops[i].newP == P;
    assert all[i] == ops[i] && Redirects(all, L);
    hide Inv, OriginRow, Ops, Overlaid;
    assert ItemsOk(s) by { InvParts(s); }
    RedirectsQueued(s, L);
    RedirectOverlays(s, all, L, i);
  }

  /** After a power cut an origin row that was flushed reads as it did, or -- where its COW was
      being committed -- with all of that write. */
  lemma CutLeavesWhole(s: Sys, k: nat, rows: map<nat, Row>, L: nat)
    requires Inv(s) && CanCut(s, k, rows) && s.batch.Recording? && L < |s.st.origin| && s.st.origin[L] !in s.dirty
    ensures |DoCut(s, k, rows).st.origin| == |s.st.origin|
    ensures var row := OriginRow(DoCut(s, k, rows), L);
      row == OriginRow(s, L) || (Redir(L) in s.batch.items && Overlaid(s, L, row))
  {
    var t, all := DoCut(s, k, rows), Ops(s.cows, s.batch.items);
    CutIs(s, k, rows);
    SameRows(s, k, rows);
    FlushedRow(s, L);
    hide Inv, CanCut, DoCut, Ops, OpsOk, Overlaid;
    InvParts(s);
    BatchItemsOk(s);
    PrefixOk(s.st, all, k);
    hide Coherent, BatchOk, RowsWhole, CowsOk, IosOk, ItemsOk, DirtyPrivate, UsedExact, FrozenOk;
    BatchOrigin(s.st, all[..k], L);
    if Redirects(all[..k], L) {
      RedirectWritten(s, k, L, t.st.origin[L]);
    }
  }

  lemma SameRows(s: Sys, k: nat, rows: map<nat, Row>)
    requires CanCut(s, k, rows)
    ensures forall P :: P in rows <==> P in s.rows
    ensures forall P :: P in rows && P !in s.dirty ==> rows[P] == s.rows[P]
  {
    assert rows.Keys == s.rows.Keys;
    hide OpsOk;
  }

  // ---- rows ------------------------------------------------------------------------------

  ghost function FreeRows(s: Sys): set<nat>
    requires Coherent(s.st)
  {
    RowsOwned(s.st, OwnFree) - s.st.used
  }

  lemma CowRowFree(s: Sys, P: nat)
    requires CowsOk(s) && LostOk(s) && P in FreshRows(s, s.cows.Keys)
    ensures P < s.st.R && Owner(s.st, P).own.OwnFree? && P !in LostRows(s) && P in s.st.used
  {
    var L :| L in s.cows && !s.cows[L].at.Waiting? && s.cows[L].newP == P;
    hide CowsOk, LostOk, FreshRows, LostRows, Owner;
    NewRowFree(s, L);
    LostApart(s, L);
  }

  lemma DoubtRowFree(s: Sys, P: nat)
    requires LostOk(s) && P in LostRows(s)
    ensures P < s.st.R && Owner(s.st, P).own.OwnFree? && P in s.st.used
  {
    var i :| 0 <= i < |s.lost| && s.lost[i].Redirect? && s.lost[i].newP == P;
    LostNewUsed(s);
    hide LostOk, LostRows, Owner;
    LostRowFree(s, i);
    LostInRange(s, i);
  }

  lemma UsedRow(s: Sys, P: nat)
    requires UsedExact(s)
    ensures P in s.st.used <==>
      (P < s.st.R && !Owner(s.st, P).own.OwnFree?) || P in FreshRows(s, s.cows.Keys) || P in LostRows(s)
  {
    hide FreshRows, LostRows, Owner;
  }

  lemma FreeRow(s: Sys, P: nat)
    requires Coherent(s.st)
    ensures P in RowsOwned(s.st, OwnFree) <==> P < s.st.R && Owner(s.st, P).own.OwnFree?
    ensures P in FreeRows(s) <==> P in RowsOwned(s.st, OwnFree) && P !in s.st.used
  {
    hide Coherent, Owner;
  }

  /** a row no snapshot and not the origin owns: free, or reserved once */
  lemma ReservedRow(s: Sys, P: nat)
    requires Inv(s)
    ensures Coherent(s.st)
    ensures P in RowsOwned(s.st, OwnFree) <==> P in FreeRows(s) || P in FreshRows(s, s.cows.Keys) || P in LostRows(s)
    ensures P in FreshRows(s, s.cows.Keys) ==> P !in LostRows(s) && P !in FreeRows(s)
    ensures P in LostRows(s) ==> P !in FreeRows(s)
  {
    hide *;
    InvParts(s);
    UsedRow(s, P);
    FreeRow(s, P);
    if P in FreshRows(s, s.cows.Keys) {
      CowRowFree(s, P);
    }
    if P in LostRows(s) {
      DoubtRowFree(s, P);
    }
  }

  lemma ReservedRows(s: Sys)
    requires Inv(s)
    ensures Coherent(s.st)
    ensures RowsOwned(s.st, OwnFree) == FreeRows(s) + FreshRows(s, s.cows.Keys) + LostRows(s)
    ensures FreshRows(s, s.cows.Keys) !! LostRows(s)
    ensures FreeRows(s) !! FreshRows(s, s.cows.Keys) + LostRows(s)
  {
    hide *;
    ReservedRow(s, 0);
    forall P: nat
      ensures P in RowsOwned(s.st, OwnFree) <==>
        P in FreeRows(s) || P in FreshRows(s, s.cows.Keys) || P in LostRows(s)
      ensures P in FreshRows(s, s.cows.Keys) ==> P !in LostRows(s) && P !in FreeRows(s)
      ensures P in LostRows(s) ==> P !in FreeRows(s)
    {
      ReservedRow(s, P);
    }
  }

  lemma LostInRange(s: Sys, i: nat)
    requires LostOk(s) && i < |s.lost| && s.lost[i].Redirect?
    ensures s.lost[i].newP < s.st.R
  {
    assert OpOk(s.st, s.lost[i]);
    hide Owner;
  }

  function One(b: bool): nat {
    if b then 1 else 0
  }

  /** in how many of the five ways a row is in use or free */
  ghost function Roles(s: Sys, P: nat): nat
    requires Coherent(s.st)
  {
    One(P in RowsOwned(s.st, OwnOrigin)) + One(P in SnapRows(s.st, |s.st.snaps|))
    + One(P in FreeRows(s)) + One(P in FreshRows(s, s.cows.Keys)) + One(P in LostRows(s))
  }

  lemma OneKind(st: St, P: nat)
    requires Coherent(st) && P < st.R
    ensures One(P in RowsOwned(st, OwnOrigin)) + One(P in SnapRows(st, |st.snaps|)) + One(P in RowsOwned(st, OwnFree))
      == 1
  {
    assert OwnersExcept(st);
    hide Coherent;
    if Owner(st, P).own.OwnSnap? {
      var i: nat :| Excepted(st, i, P);
    }
    hide OwnersExcept;
  }

  lemma OneRole(s: Sys, P: nat)
    requires Inv(s) && Coherent(s.st) && P < s.st.R
    ensures Roles(s, P) == 1
  {
    hide Inv, Coherent, RowsOwned, SnapRows, FreeRows, FreshRows, LostRows;
    OneKind(s.st, P);
    ReservedRow(s, P);
  }

  /** Every physical row is the origin's, a snapshot's, free, a COW's in flight, or named by a
      record in doubt -- and exactly one of these. */
  lemma RowsAccounted(s: Sys)
    requires Inv(s)
    ensures Coherent(s.st)
    ensures forall P: nat :: P < s.st.R ==> Roles(s, P) == 1
    ensures s.st.O + TotalExceptions(s.st.snaps) + |FreeRows(s)| + |FreshRows(s, s.cows.Keys)| + |LostRows(s)| == s.st.R
  {
    hide *;
    ReservedRows(s);
    RowsConserved(s.st);
    forall P: nat | P < s.st.R
      ensures Roles(s, P) == 1
    {
      OneRole(s, P);
    }
  }

  // ---- the start ----------------------------------------------------------------------------------------------

  /** an array just assembled */
  ghost function Boot(rs: nat, slots: nat, st: St, rows: map<nat, Row>): Sys {
    Sys(rs, slots, st, rows, {}, map[], map[], [], false, false, false, [], Idle, [], Freeze([], map[], st, rows))
  }

  lemma BootFrozen(st: St, rows: map<nat, Row>)
    requires ChainOrdered(st.snaps, st.nextId)
    ensures FrozenAt(st, rows, Freeze([], map[], st, rows))
  {
    forall k | 0 <= k < |st.snaps|
      ensures st.snaps[k].id in ChainIds(st.snaps) && PositionOf(st.snaps, st.snaps[k].id) == k
    {
      ChainPosition(st.snaps, st.nextId, k);
    }
    hide Contents;
  }

  lemma BootInv(rs: nat, slots: nat, st: St, rows: map<nat, Row>)
    requires AtRest(st) && slots > 0
    requires (forall P: nat :: P in rows <==> P < st.R) && forall P :: P in rows ==> |rows[P]| == rs
    ensures Inv(Boot(rs, slots, st, rows))
  {
    var s := Boot(rs, slots, st, rows);
    CoherentParts(st);
    BootFrozen(st, rows);
    assert FrozenOk(s);
    NoBatch(st);
    hide Coherent, Freeze, Contents, Owner, OpOk, BatchOk;
    assert Items(s) == [];
    InvFrom(s);
  }

  /** From the assembly of an array on, through origin writes, COWs, discards, creates, destroys,
      failed commits and any number of power cuts: between any two moments at which a snapshot
      exists, nothing it reads has changed. */
  lemma SnapshotsNeverChange(rs: nat, slots: nat, st: St, rows: map<nat, Row>, before: seq<Step>, after: seq<Step>,
                             id: nat)
    requires AtRest(st) && slots > 0
    requires (forall P: nat :: P in rows <==> P < st.R) && forall P :: P in rows ==> |rows[P]| == rs
    requires CanRun(Boot(rs, slots, st, rows), before)
    requires CanRun(Run(Boot(rs, slots, st, rows), before), after)
    requires id in ChainIds(Run(Boot(rs, slots, st, rows), before).st.snaps)
    requires id in ChainIds(Run(Run(Boot(rs, slots, st, rows), before), after).st.snaps)
    ensures Reads(Run(Run(Boot(rs, slots, st, rows), before), after), id) == Reads(Run(Boot(rs, slots, st, rows), before), id)
  {
    hide *;
    BootInv(rs, slots, st, rows);
    RunKeeps(Boot(rs, slots, st, rows), before);
    RunIsolates(Run(Boot(rs, slots, st, rows), before), after, id);
  }
}
