/** Commits and power cuts of the COW machine, and what follows for whole runs: a snapshot's
    contents never change from its create to its destroy (km/raid_km-snap.c:187-213, 622-702,
    766-777; km/raid_km-snapmeta.c:741-766). */
module SnapFrozen {
  import opened SnapState
  import opened SnapWalk
  import opened SnapDerive
  import opened SnapStored
  import opened SnapReplay
  import opened SnapPrivate
  import opened SnapCow
  import opened SnapIsolation

  // ---- contents over a batch --------------------------------------------------------------

  ghost predicate FrozenAt(st: St, rows: map<nat, Row>, frozen: map<nat, seq<Row>>) {
    forall k :: 0 <= k < |st.snaps| ==>
      st.snaps[k].id in frozen && frozen[st.snaps[k].id] == Contents(st, rows, k)
  }

  /** rows a snapshot may read are as they were */
  ghost predicate SameShared(st: St, rows: map<nat, Row>, rows': map<nat, Row>) {
    forall P: nat :: P < st.R && !Private(st, P) ==> (P in rows <==> P in rows') && (P in rows ==> rows'[P] == rows[P])
  }

  lemma SameContents(st: St, t: St, rows: map<nat, Row>, rows': map<nat, Row>, k: nat, k': nat)
    requires Coherent(st) && SameReads(st, t, k, k') && SameShared(st, rows, rows')
    ensures Contents(t, rows', k') == Contents(st, rows, k)
  {
    assert st.O == |st.origin| by { CoherentParts(st); }
    hide Coherent, Private, Walk;
    forall L | 0 <= L < |st.origin| ensures Walk(st, k, L) < st.R && !Private(st, Walk(st, k, L)) {
      ReadNotPrivate(st, k, L);
    }
  }

  lemma ChainPosition(snaps: seq<Snap>, nextId: nat, k: nat)
    requires ChainOrdered(snaps, nextId) && k < |snaps|
    ensures snaps[k].id in ChainIds(snaps) && PositionOf(snaps, snaps[k].id) == k
  {
    assert snaps[k].id in ChainIds(snaps);
    var j := PositionOf(snaps, snaps[k].id);
  }

  lemma IdIn(snaps: seq<Snap>, k: nat)
    requires k < |snaps|
    ensures snaps[k].id in ChainIds(snaps)
  {
  }

  lemma IdsBelow(snaps: seq<Snap>, nextId: nat)
    requires ChainOrdered(snaps, nextId)
    ensures forall id :: id in ChainIds(snaps) ==> id < nextId
  {
  }

  lemma FreezeAt(st: St, rows: map<nat, Row>, frozen: map<nat, seq<Row>>, t: St, rows': map<nat, Row>, k': nat)
    requires Coherent(st) && Coherent(t) && Follows(st, t) && FrozenAt(st, rows, frozen)
    requires SameShared(st, rows, rows') && k' < |t.snaps|
    ensures var id := t.snaps[k'].id; var f := Freeze(st.snaps, frozen, t, rows');
      id in f && f[id] == Contents(t, rows', k')
  {
    CoherentParts(st);
    CoherentParts(t);
    ChainPosition(t.snaps, t.nextId, k');
    IdsBelow(st.snaps, st.nextId);
    hide Coherent, SameReads, Contents, ChainIds, SameShared;
    if t.snaps[k'].id < st.nextId {
      var k: nat :| SameReads(st, t, k, k');
      SameReadsIds(st, t, k, k');
      IdIn(st.snaps, k);
      SameContents(st, t, rows, rows', k, k');
    }
  }

  /** Whatever follows the maps, without touching what snapshots read, keeps them frozen. */
  lemma FreezeKeeps(st: St, rows: map<nat, Row>, frozen: map<nat, seq<Row>>, t: St, rows': map<nat, Row>)
    requires Coherent(st) && Coherent(t) && Follows(st, t) && FrozenAt(st, rows, frozen) && SameShared(st, rows, rows')
    ensures FrozenAt(t, rows', Freeze(st.snaps, frozen, t, rows'))
  {
    hide Coherent, Follows, SameShared, Contents, Freeze;
    forall k' | 0 <= k' < |t.snaps|
      ensures var id := t.snaps[k'].id; var f := Freeze(st.snaps, frozen, t, rows');
        id in f && f[id] == Contents(t, rows', k')
    {
      FreezeAt(st, rows, frozen, t, rows', k');
    }
  }

  // ---- ops that are not in the batch, over it ------------------------------------------------

  lemma {:induction false} BatchStays(st: St, ops: seq<Op>, b: Op)
    requires Coherent(st) && BatchOk(st, ops) && OpOk(st, b)
    requires forall i :: 0 <= i < |ops| ==> Independent(ops[i], b)
    ensures OpsOk(st, ops) && OpOk(ApplyAll(st, ops), b)
    decreases |ops|
  {
    BatchApplies(st, ops);
    if ops != [] {
      BatchStep(st, ops);
      hide Coherent, OpOk, Apply, Applicable, BatchOk, Independent;
      IndependentStays(st, ops[0], b);
      BatchStays(Apply(st, ops[0]), ops[1..], b);
    }
  }

  /** only redirects of other rows, and labels */
  predicate Elsewhere(ops: seq<Op>, L: nat) {
    forall i :: 0 <= i < |ops| ==> Labels(ops[i]) || (ops[i].Redirect? && ops[i].L != L)
  }

  lemma OpElsewhere(st: St, op: Op, L: nat)
    requires Coherent(st) && OpOk(st, op) && Applicable(st, op) && L < |st.origin|
    requires Labels(op) || (op.Redirect? && op.L != L)
    ensures var s := Apply(st, op);
      |s.origin| == |st.origin| && s.origin[L] == st.origin[L] && Shared(s, L) == Shared(st, L)
      && st.used <= s.used && s.R == st.R && s.O == st.O
  {
    hide Coherent, Owner, RmapSet;
  }

  lemma {:induction false} BatchElsewhere(st: St, ops: seq<Op>, L: nat)
    requires Coherent(st) && BatchOk(st, ops) && Elsewhere(ops, L) && L < |st.origin|
    ensures OpsOk(st, ops)
    ensures var s := ApplyAll(st, ops);
      |s.origin| == |st.origin| && s.origin[L] == st.origin[L] && Shared(s, L) == Shared(st, L) && st.used <= s.used
    decreases |ops|
  {
    BatchApplies(st, ops);
    if ops != [] {
      BatchStep(st, ops);
      hide Coherent, OpOk, Apply, Applicable, BatchOk, Shared;
      OpElsewhere(st, ops[0], L);
      BatchElsewhere(Apply(st, ops[0]), ops[1..], L);
    }
  }

  // ---- rows accounted for, over a batch ----------------------------------------------------------

  ghost predicate UsedAs(st: St, reserved: set<nat>) {
    forall P: nat :: P in st.used <==> (P < st.R && !Owner(st, P).own.OwnFree?) || P in reserved
  }

  function NewRows(ops: seq<Op>): set<nat> {
    if ops == [] then {} else (if ops[0].Redirect? then {ops[0].newP} else {}) + NewRows(ops[1..])
  }

  lemma RedirectUsedAs(st: St, L: nat, oldP: nat, newP: nat, reserved: set<nat>)
    requires Coherent(st) && OpOk(st, Redirect(L, oldP, newP)) && UsedAs(st, reserved) && newP in reserved
    ensures UsedAs(ApplyRedirect(st, L, oldP, newP), reserved - {newP})
  {
    CoherentParts(st);
    var s := ApplyRedirect(st, L, oldP, newP);
    forall P: nat
      ensures P in s.used <==> (P < s.R && !Owner(s, P).own.OwnFree?) || P in reserved - {newP}
    {
      RedirectOwners(st, L, oldP, newP, P);
      hide Coherent, Owner;
    }
  }

  lemma DestroyUsedAs(st: St, slot: nat)
    requires Coherent(st) && OpOk(st, Destroy(slot)) && UsedAs(st, {})
    ensures Applicable(st, Destroy(slot)) && UsedAs(ApplyDestroy(st, slot), {})
  {
    assert st.used == OwnedRows(st);
    AtRestApply(st, Destroy(slot));
    CoherentParts(ApplyDestroy(st, slot));
    hide ApplyDestroy, Coherent, Owner;
  }

  lemma OpUsedAs(st: St, op: Op, reserved: set<nat>)
    requires Coherent(st) && OpOk(st, op) && Applicable(st, op) && UsedAs(st, reserved)
    requires op.Redirect? ==> op.newP in reserved
    requires op.Destroy? ==> reserved == {}
    ensures UsedAs(Apply(st, op), reserved - if op.Redirect? then {op.newP} else {})
  {
    match op {
      case Redirect(L, oldP, newP) =>
        hide Coherent, UsedAs;
        RedirectUsedAs(st, L, oldP, newP, reserved);
      case Destroy(slot) =>
        hide Coherent, UsedAs;
        DestroyUsedAs(st, slot);
      case _ =>
        hide Coherent, OpOk;
        assert forall P :: Owner(Apply(st, op), P) == Owner(st, P);
    }
  }

  /** each redirect's row is reserved, and nothing is when a snapshot is destroyed */
  predicate Reserves(ops: seq<Op>, reserved: set<nat>) {
    forall i :: 0 <= i < |ops| ==>
      (ops[i].Redirect? ==> ops[i].newP in reserved) && (ops[i].Destroy? ==> reserved == {})
  }

  lemma ReservesRest(st: St, ops: seq<Op>, reserved: set<nat>)
    requires BatchOk(st, ops) && Reserves(ops, reserved) && ops != []
    ensures Reserves(ops[1..], reserved - if ops[0].Redirect? then {ops[0].newP} else {})
  {
    hide OpOk;
    forall i | 0 <= i < |ops[1..]| ensures ops[1..][i] == ops[i + 1] && Independent(ops[0], ops[i + 1]) {
    }
  }

  lemma {:induction false} BatchUsed(st: St, ops: seq<Op>, reserved: set<nat>)
    requires Coherent(st) && BatchOk(st, ops) && UsedAs(st, reserved) && Reserves(ops, reserved)
    ensures OpsOk(st, ops) && UsedAs(ApplyAll(st, ops), reserved - NewRows(ops))
    decreases |ops|
  {
    BatchApplies(st, ops);
    if ops == [] {
      assert reserved - {} == reserved;
    } else {
      BatchStep(st, ops);
      ReservesRest(st, ops, reserved);
      hide Coherent, OpOk, Apply, Applicable, BatchOk, UsedAs;
      OpUsedAs(st, ops[0], reserved);
      var left := reserved - if ops[0].Redirect? then {ops[0].newP} else {};
      BatchUsed(Apply(st, ops[0]), ops[1..], left);
      assert left - NewRows(ops[1..]) == reserved - NewRows(ops);
    }
  }

  // ---- a commit that completes -----------------------------------------------------------------------

  ghost predicate Commits(s: Sys, t: Sys, ops: seq<Op>, gone: set<nat>) {
    && s.batch.Recording? && ops == Ops(s.cows, s.batch.items) && gone == Redirs(s.batch.items)
    && OpsOk(s.st, ops) && t.st == ApplyAll(s.st, ops) && t.cows == s.cows - gone
    && t.rows == s.rows && t.ios == s.ios && t.dirty == s.dirty && t.rs == s.rs && t.slots == s.slots
    && t.hold == s.hold && t.suspended == s.suspended && t.pending == s.pending && t.lost == s.lost
    && t.broken == s.broken && t.batch.Idle?
    && t.overflow == (if s.hold || gone == {} then s.overflow else [])
    && t.frozen == Freeze(s.st.snaps, s.frozen, t.st, t.rows)
  }

  lemma CommitMaps(s: Sys, t: Sys, ops: seq<Op>, gone: set<nat>)
    requires Commits(s, t, ops, gone) && RowsWhole(s) && BatchOk(s.st, ops)
    ensures Coherent(t.st) && Follows(s.st, t.st) && RowsWhole(t)
  {
    hide Coherent, BatchOk, OpsOk, Follows;
    BatchApplies(s.st, ops);
    BatchFollows(s.st, ops);
    FollowsSize(s.st, t.st);
  }

  lemma FollowsSize(st: St, t: St)
    requires Follows(st, t)
    ensures t.R == st.R && t.O == st.O && t.nextId >= st.nextId
  {
  }

  /** what is in the batch, of one item */
  lemma BatchItem(s: Sys, i: nat)
    requires ItemsOk(s) && i < |BatchItems(s.batch)|
    ensures ItemOk(s, BatchItems(s.batch)[i]) && BatchItems(s.batch)[i] in Items(s)
  {
    assert Items(s)[i] == BatchItems(s.batch)[i];
    hide ItemOk;
  }

  /** with a COW or I/O in flight the batch has redirects of other rows and labels only */
  lemma CommitElsewhere(s: Sys, L: nat)
    requires ItemsOk(s) && !s.suspended && L !in Redirs(BatchItems(s.batch))
    ensures Elsewhere(Ops(s.cows, BatchItems(s.batch)), L)
  {
    var items := BatchItems(s.batch);
    hide OpOk;
    forall i | 0 <= i < |items|
      ensures var op := Ops(s.cows, items)[i]; Labels(op) || (op.Redirect? && op.L != L)
    {
      BatchItem(s, i);
      if items[i].Redir? {
        RedirIn(items, items[i].L);
      }
    }
  }

  lemma CommitCowIndependent(s: Sys, L: nat)
    requires ItemsOk(s) && CowsOk(s) && !s.suspended && L in s.cows && L !in Redirs(BatchItems(s.batch))
    requires !s.cows[L].at.Waiting?
    ensures forall i :: 0 <= i < |BatchItems(s.batch)| ==>
      Independent(Ops(s.cows, BatchItems(s.batch))[i], Redirect(L, s.cows[L].oldP, s.cows[L].newP))
  {
    var items := BatchItems(s.batch);
    hide OpOk, CowOk;
    forall i | 0 <= i < |items|
      ensures Independent(Ops(s.cows, items)[i], Redirect(L, s.cows[L].oldP, s.cows[L].newP))
    {
      BatchItem(s, i);
      if items[i].Redir? {
        RedirIn(items, items[i].L);
      }
    }
  }

  lemma CommitCow(s: Sys, t: Sys, ops: seq<Op>, gone: set<nat>, L: nat)
    requires Commits(s, t, ops, gone) && Coherent(s.st) && BatchOk(s.st, ops)
    requires ItemsOk(s) && CowsOk(s) && !s.suspended && L in t.cows
    ensures CowOk(t, s.cows[L])
  {
    assert L in s.cows && L !in Redirs(BatchItems(s.batch)) && t.rows == s.rows && t.rs == s.rs;
    assert t.st == ApplyAll(s.st, ops) && ops == Ops(s.cows, BatchItems(s.batch));
    hide *;
    CowAt(s, L);
    CowShared(s, L);
    CommitElsewhere(s, L);
    WriteFits(s, s.cows[L].w);
    BatchElsewhere(s.st, ops, L);
    BatchFollows(s.st, ops);
    FollowsSize(s.st, t.st);
    if !s.cows[L].at.Waiting? {
      NewRowFree(s, L);
      CommitCowIndependent(s, L);
      BatchStays(s.st, ops, Redirect(L, s.cows[L].oldP, s.cows[L].newP));
    }
    CowFrom(s, t, s.cows[L]);
  }

  lemma WriteFits(s: Sys, w: Write)
    requires GoodWrite(s, w)
    ensures w.L < |s.st.origin|
  {
  }

  lemma CowFrom(s: Sys, t: Sys, c: Cow)
    requires CowOk(s, c) && t.rows == s.rows && t.rs == s.rs && t.st.O == s.st.O && |t.st.origin| == |s.st.origin|
    requires Shared(t.st, c.w.L)
    requires !c.at.Waiting? ==> OpOk(t.st, Redirect(c.w.L, c.oldP, c.newP)) && c.newP in t.st.used
    ensures CowOk(t, c)
  {
    hide OpOk, Shared;
  }

  lemma CommitCows(s: Sys, t: Sys, ops: seq<Op>, gone: set<nat>)
    requires Commits(s, t, ops, gone) && Coherent(s.st) && BatchOk(s.st, ops)
    requires ItemsOk(s) && CowsOk(s) && ModeOk(s)
    ensures CowsOk(t)
  {
    assert forall L :: L in t.cows ==> L in s.cows && t.cows[L] == s.cows[L];
    assert s.suspended ==> s.cows == map[];
    assert forall L :: L in s.cows ==> s.cows[L].w.L == L;
    assert forall L, M :: L in s.cows && M in s.cows && L != M && !s.cows[L].at.Waiting? && !s.cows[M].at.Waiting? ==>
      s.cows[L].newP != s.cows[M].newP;
    hide Commits, Coherent, BatchOk, ItemsOk, CowOk, ModeOk;
    forall L | L in t.cows ensures t.cows[L].w.L == L && CowOk(t, t.cows[L]) {
      CommitCow(s, t, ops, gone, L);
    }
    hide CowsOk;
    CowsFrom(t);
  }

  lemma CowsFrom(t: Sys)
    requires forall L :: L in t.cows ==> t.cows[L].w.L == L && CowOk(t, t.cows[L])
    requires forall L, M :: L in t.cows && M in t.cows && L != M && !t.cows[L].at.Waiting? && !t.cows[M].at.Waiting? ==>
      t.cows[L].newP != t.cows[M].newP
    ensures CowsOk(t)
  {
    hide CowOk;
  }

  lemma CommitIo(s: Sys, t: Sys, ops: seq<Op>, gone: set<nat>, io: Io)
    requires Commits(s, t, ops, gone) && Coherent(s.st) && BatchOk(s.st, ops)
    requires ItemsOk(s) && CowsOk(s) && !s.suspended && IoOk(s, io)
    ensures IoOk(t, io)
  {
    var L := io.w.L;
    assert GoodWrite(s, io.w) && io.P == s.st.origin[L] && !Shared(s.st, L) && t.rs == s.rs;
    assert gone == Redirs(BatchItems(s.batch)) && t.st == ApplyAll(s.st, ops) && ops == Ops(s.cows, BatchItems(s.batch));
    hide *;
    BatchGone(s, gone);
    if L in gone {
      CowShared(s, L);
    }
    CommitElsewhere(s, L);
    WriteFits(s, io.w);
    BatchElsewhere(s.st, ops, L);
    BatchFollows(s.st, ops);
    FollowsSize(s.st, t.st);
    IoFrom(s, t, io);
  }

  lemma IoFrom(s: Sys, t: Sys, io: Io)
    requires IoOk(s, io) && t.rs == s.rs && t.st.O == s.st.O && |t.st.origin| == |s.st.origin|
    requires io.w.L < |s.st.origin| && t.st.origin[io.w.L] == s.st.origin[io.w.L] && !Shared(t.st, io.w.L)
    ensures IoOk(t, io)
  {
    hide Shared;
  }

  lemma CommitIos(s: Sys, t: Sys, ops: seq<Op>, gone: set<nat>)
    requires Commits(s, t, ops, gone) && Coherent(s.st) && BatchOk(s.st, ops)
    requires ItemsOk(s) && CowsOk(s) && IosOk(s) && ModeOk(s)
    ensures IosOk(t)
  {
    assert t.ios == s.ios && (s.suspended ==> s.ios == map[]);
    hide Commits, Coherent, BatchOk, ItemsOk, CowsOk, IoOk, ModeOk;
    forall id | id in t.ios ensures IoOk(t, t.ios[id]) {
      CommitIo(s, t, ops, gone, s.ios[id]);
    }
  }

  /** beside a command that waits there are only COWs in the batch */
  lemma CmdAlone(s: Sys, x: Item, i: nat)
    requires ItemsOk(s) && x in s.pending && x.Cmd? && i < |BatchItems(s.batch)|
    ensures BatchItems(s.batch)[i].Redir?
  {
    var n := |BatchItems(s.batch)|;
    var k :| 0 <= k < |s.pending| && s.pending[k] == x;
    assert Items(s)[i] == BatchItems(s.batch)[i] && Items(s)[n + k] == x;
    assert !SameKey(Items(s)[i], Items(s)[n + k]);
    hide ItemOk, Failed;
  }

  lemma CmdIndependent(s: Sys, x: Item, item: Item)
    requires ModeOk(s) && ItemOk(s, x) && x.Cmd? && item.Redir? && ItemOk(s, item)
    ensures Independent(ItemOp(s.cows, item), x.op)
  {
    hide OpOk;
  }

  lemma CmdOp(s: Sys, x: Item)
    requires ItemOk(s, x) && x.Cmd?
    ensures OpOk(s.st, x.op)
  {
    hide OpOk;
  }

  lemma CmdFrom(s: Sys, t: Sys, x: Item)
    requires ItemOk(s, x) && x.Cmd? && t.hold == s.hold && t.suspended == s.suspended && OpOk(t.st, x.op)
    ensures ItemOk(t, x)
  {
    hide OpOk;
  }

  lemma PendingQueued(s: Sys, x: Item)
    requires x in s.pending
    ensures x in Items(s)
  {
  }

  lemma CommitCmd(s: Sys, t: Sys, ops: seq<Op>, gone: set<nat>, x: Item)
    requires Commits(s, t, ops, gone) && Coherent(s.st) && BatchOk(s.st, ops)
    requires ItemsOk(s) && ModeOk(s) && x in s.pending && x.Cmd?
    ensures ItemOk(t, x)
  {
    var items := BatchItems(s.batch);
    assert ops == Ops(s.cows, items) && t.st == ApplyAll(s.st, ops) && t.hold == s.hold && t.suspended == s.suspended;
    hide *;
    PendingQueued(s, x);
    QueuedItem(s, x);
    CmdOp(s, x);
    forall i | 0 <= i < |ops| ensures Independent(ops[i], x.op) {
      CmdAlone(s, x, i);
      BatchItem(s, i);
      CmdIndependent(s, x, items[i]);
    }
    BatchStays(s.st, ops, x.op);
    CmdFrom(s, t, x);
  }

  lemma CommitItems(s: Sys, t: Sys, ops: seq<Op>, gone: set<nat>)
    requires Commits(s, t, ops, gone) && Coherent(s.st) && BatchOk(s.st, ops) && ItemsOk(s) && ModeOk(s)
    ensures ItemsOk(t)
  {
    assert gone == Redirs(BatchItems(s.batch)) && t.cows == s.cows - gone && t.batch.Idle? && t.pending == s.pending;
    hide *;
    BatchGone(s, gone);
    forall x | x in s.pending && x.Cmd? && ItemOk(s, x) ensures ItemOk(t, x) {
      CommitCmd(s, t, ops, gone, x);
    }
    RestItems(s, t, gone);
  }

  lemma CreateQuiet(s: Sys)
    requires s.batch.Recording? && FlushedOk(s) && HasCreate(Ops(s.cows, s.batch.items))
    ensures s.dirty == {}
  {
    var i :| 0 <= i < |s.batch.items| && Ops(s.cows, s.batch.items)[i].Create?;
    assert s.batch.items[i].Cmd?;
  }

  lemma CommitDirty(s: Sys, t: Sys, ops: seq<Op>, gone: set<nat>)
    requires Commits(s, t, ops, gone) && RowsWhole(s) && BatchOk(s.st, ops) && DirtyPrivate(s) && FlushedOk(s)
    ensures DirtyPrivate(t)
  {
    if HasCreate(ops) {
      CreateQuiet(s);
    }
    assert t.cows == s.cows - gone && t.ios == s.ios && t.dirty == s.dirty && t.st == ApplyAll(s.st, ops);
    assert InFlight(t) <= InFlight(s);
    hide Commits, Coherent, BatchOk, FlushedOk, InFlight, Private, OpsOk;
    BatchFollows(s.st, ops);
    FollowsSize(s.st, t.st);
    forall P | P in t.dirty ensures Private(t.st, P) {
      BatchPrivate(s.st, ops, P);
    }
  }

  lemma {:induction false} NewRowsAre(ops: seq<Op>, P: nat)
    ensures P in NewRows(ops) <==> exists i :: 0 <= i < |ops| && ops[i].Redirect? && ops[i].newP == P
  {
    if ops != [] {
      NewRowsAre(ops[1..], P);
      if i :| 0 <= i < |ops| && ops[i].Redirect? && ops[i].newP == P {
        assert i > 0 ==> ops[1..][i - 1] == ops[i];
      }
      if i :| 0 <= i < |ops[1..]| && ops[1..][i].Redirect? && ops[1..][i].newP == P {
        assert ops[i + 1] == ops[1..][i];
      }
    }
  }

  lemma BatchNewRows(s: Sys, gone: set<nat>)
    requires ItemsOk(s) && gone == Redirs(BatchItems(s.batch))
    ensures NewRows(Ops(s.cows, BatchItems(s.batch))) == FreshRows(s, gone)
  {
    var ops := Ops(s.cows, BatchItems(s.batch));
    BatchGone(s, gone);
    LostIsFresh(s, s.(lost := ops), gone);
    forall P: nat ensures P in NewRows(ops) <==> P in LostRows(s.(lost := ops)) {
      NewRowsAre(ops, P);
    }
    hide FreshRows, LostRows, ItemsOk;
  }

  lemma BatchReserves(s: Sys)
    requires ItemsOk(s) && ModeOk(s)
    ensures Reserves(Ops(s.cows, BatchItems(s.batch)), FreshRows(s, s.cows.Keys))
  {
    var items := BatchItems(s.batch);
    hide OpOk;
    forall i | 0 <= i < |items|
      ensures var op := Ops(s.cows, items)[i];
        (op.Redirect? ==> op.newP in FreshRows(s, s.cows.Keys))
        && (op.Destroy? ==> FreshRows(s, s.cows.Keys) == {})
    {
      BatchItem(s, i);
      if items[i].Redir? {
        FreshHas(s, s.cows.Keys, items[i].L);
      }
    }
  }

  lemma CommitUsed(s: Sys, t: Sys, ops: seq<Op>, gone: set<nat>)
    requires Commits(s, t, ops, gone) && Coherent(s.st) && BatchOk(s.st, ops)
    requires ItemsOk(s) && ModeOk(s) && CowsOk(s) && LostOk(s) && UsedExact(s)
    ensures UsedExact(t)
  {
    assert gone == Redirs(BatchItems(s.batch)) && ops == Ops(s.cows, BatchItems(s.batch)) && t.cows == s.cows - gone;
    assert t.st == ApplyAll(s.st, ops) && t.lost == s.lost;
    assert LostRows(t) == LostRows(s);
    NamesOnly(s);
    hide *;
    BatchGone(s, gone);
    BatchNewRows(s, gone);
    BatchReserves(s);
    FreshApart(s, gone);
    LeftFresh(s, t, gone);
    UsedAsExact(s, FreshRows(s, s.cows.Keys));
    BatchUsed(s.st, ops, FreshRows(s, s.cows.Keys));
    assert FreshRows(s, s.cows.Keys) - FreshRows(s, gone) == FreshRows(t, t.cows.Keys);
    UsedAsExact(t, FreshRows(t, t.cows.Keys));
  }

  lemma LeftFresh(s: Sys, t: Sys, gone: set<nat>)
    requires t.cows == s.cows - gone
    ensures FreshRows(t, t.cows.Keys) == FreshRows(s, s.cows.Keys - gone)
  {
    assert t.cows.Keys == s.cows.Keys - gone;
  }

  lemma UsedAsExact(s: Sys, reserved: set<nat>)
    requires reserved == FreshRows(s, s.cows.Keys) && LostRows(s) == {}
    ensures UsedAs(s.st, reserved) <==> UsedExact(s)
  {
    hide FreshRows, LostRows, Owner;
  }

  lemma CommitFrozen(s: Sys, t: Sys, ops: seq<Op>, gone: set<nat>)
    requires Commits(s, t, ops, gone) && Coherent(s.st) && Coherent(t.st) && Follows(s.st, t.st) && FrozenOk(s)
    ensures FrozenOk(t)
  {
    assert SameShared(s.st, s.rows, t.rows) && FrozenAt(s.st, s.rows, s.frozen);
    hide Coherent, Follows, Freeze, SameShared;
    FreezeKeeps(s.st, s.rows, s.frozen, t.st, t.rows);
    hide Contents;
  }

  lemma CommitRest(s: Sys, t: Sys, ops: seq<Op>, gone: set<nat>)
    requires Commits(s, t, ops, gone) && LostOk(s) && ModeOk(s) && gone <= s.cows.Keys
    ensures LostOk(t) && ModeOk(t) && FlushedOk(t)
  {
    hide OpsOk, Freeze, OpOk;
    assert gone == {} ==> t.cows == s.cows;
    assert s.suspended ==> t.cows == map[];
  }

  lemma CommitKeeps(s: Sys, t: Sys, ops: seq<Op>, gone: set<nat>)
    requires Inv(s) && Commits(s, t, ops, gone)
    ensures Inv(t)
  {
    assert ops == Ops(s.cows, BatchItems(s.batch)) && gone == Redirs(BatchItems(s.batch));
    hide *;
    InvParts(s);
    BatchItemsOk(s);
    BatchGone(s, gone);
    CommitMaps(s, t, ops, gone);
    CommitCows(s, t, ops, gone);
    CommitIos(s, t, ops, gone);
    CommitItems(s, t, ops, gone);
    CommitDirty(s, t, ops, gone);
    CommitUsed(s, t, ops, gone);
    CommitFrozen(s, t, ops, gone);
    CommitRest(s, t, ops, gone);
    InvFrom(t);
  }

  // ---- a power cut ------------------------------------------------------------------------------------

  ghost predicate Cuts(s: Sys, t: Sys, ops: seq<Op>) {
    && BatchOk(s.st, ops) && OpsOk(s.st, ops) && UsedCovers(ApplyAll(s.st, ops))
    && t.st == Settled(ApplyAll(s.st, ops)) && t.rs == s.rs && t.slots == s.slots
    && t.rows.Keys == s.rows.Keys
    && (forall P :: P in t.rows ==> |t.rows[P]| == s.rs && (P !in s.dirty ==> t.rows[P] == s.rows[P]))
    && t.dirty == {} && t.cows == map[] && t.ios == map[] && t.overflow == [] && !t.hold && !t.suspended && !t.broken
    && t.pending == [] && t.batch.Idle? && t.lost == []
    && t.frozen == Freeze(s.st.snaps, s.frozen, t.st, t.rows)
  }

  lemma PrefixOk(st: St, ops: seq<Op>, k: nat)
    requires BatchOk(st, ops) && k <= |ops|
    ensures BatchOk(st, ops[..k])
  {
    hide OpOk, Independent;
  }

  /** what may be in the journal beyond what was acknowledged applies, in any prefix */
  lemma InDoubtOk(s: Sys)
    requires Inv(s)
    ensures Coherent(s.st) && BatchOk(s.st, InDoubt(s))
  {
    hide *;
    InvParts(s);
    BatchItemsOk(s);
    LostBatch(s);
    InDoubtIs(s);
  }

  lemma LostBatch(s: Sys)
    requires LostOk(s)
    ensures BatchOk(s.st, s.lost)
  {
  }

  lemma InDoubtIs(s: Sys)
    ensures InDoubt(s) == Ops(s.cows, BatchItems(s.batch)) || InDoubt(s) == s.lost
  {
  }

  lemma SettledFollows(st: St)
    requires Coherent(st) && UsedCovers(st)
    ensures Follows(st, Settled(st)) && Coherent(Settled(st)) && UsedAs(Settled(st), {})
  {
    SettledCoherent(st);
    var t := Settled(st);
    assert forall P :: Owner(t, P) == Owner(st, P);
    forall i | 0 <= i < |t.snaps| ensures t.snaps[i].id >= st.nextId || exists k :: SameReads(st, t, k, i) {
      forall L | 0 <= L < |st.origin| ensures Walk(t, i, L) == Walk(st, i, L) {
        SameMapsWalk(st, t.used, i, L);
      }
      assert SameReads(st, t, i, i);
    }
  }

  lemma CutMaps(s: Sys, t: Sys, ops: seq<Op>)
    requires Cuts(s, t, ops) && Coherent(s.st)
    ensures Coherent(t.st) && Follows(s.st, t.st) && UsedAs(t.st, {})
  {
    assert t.st == Settled(ApplyAll(s.st, ops));
    hide Cuts, Coherent, OpsOk, Settled, Follows, UsedAs, BatchOk;
    BatchApplies(s.st, ops);
    BatchFollows(s.st, ops);
    CoherentParts(ApplyAll(s.st, ops));
    SettledFollows(ApplyAll(s.st, ops));
    FollowsTwice(s.st, ApplyAll(s.st, ops), t.st);
  }

  lemma CutShared(s: Sys, t: Sys, ops: seq<Op>)
    requires Cuts(s, t, ops) && RowsWhole(s) && DirtyPrivate(s)
    ensures SameShared(s.st, s.rows, t.rows)
  {
    assert forall P: nat :: P in t.rows <==> P in s.rows by { assert t.rows.Keys == s.rows.Keys; }
    hide Coherent, Private, OpsOk, BatchOk, Freeze, InFlight;
  }

  lemma CutRest(s: Sys, t: Sys, ops: seq<Op>)
    requires Cuts(s, t, ops) && RowsWhole(s) && ModeOk(s) && Coherent(t.st) && Follows(s.st, t.st) && UsedAs(t.st, {})
    ensures RowsWhole(t) && DirtyPrivate(t) && CowsOk(t) && IosOk(t) && ItemsOk(t) && ModeOk(t)
    ensures FlushedOk(t) && LostOk(t) && UsedExact(t)
  {
    FollowsSize(s.st, t.st);
    assert forall P: nat :: P in t.rows <==> P in s.rows by { assert t.rows.Keys == s.rows.Keys; }
    hide Coherent, Private, OpsOk, BatchOk, Freeze, Follows, Owner, OpOk, Settled;
    assert BatchOk(t.st, t.lost) by { NoBatch(t.st); }
    assert Items(t) == [];
  }

  lemma NoBatch(st: St)
    ensures BatchOk(st, [])
  {
  }

  lemma CutFrozen(s: Sys, t: Sys, ops: seq<Op>)
    requires Cuts(s, t, ops) && Coherent(s.st) && Coherent(t.st) && Follows(s.st, t.st) && FrozenOk(s)
    requires SameShared(s.st, s.rows, t.rows)
    ensures FrozenOk(t)
  {
    assert FrozenAt(s.st, s.rows, s.frozen) && t.frozen == Freeze(s.st.snaps, s.frozen, t.st, t.rows);
    hide Coherent, Follows, Freeze, SameShared, Cuts;
    FreezeKeeps(s.st, s.rows, s.frozen, t.st, t.rows);
    hide Contents;
  }

  lemma CutKeeps(s: Sys, t: Sys, ops: seq<Op>)
    requires Inv(s) && Cuts(s, t, ops)
    ensures Inv(t)
  {
    hide *;
    InvParts(s);
    CutMaps(s, t, ops);
    CutShared(s, t, ops);
    CutRest(s, t, ops);
    CutFrozen(s, t, ops);
    InvFrom(t);
  }

  // ---- every step -----------------------------------------------------------------------------------------

  /** a whole-row COW gets its row at once */
  function WholeStart(s: Sys, w: Write, p: nat): Sys
    requires w.L < |s.st.origin|
  {
    s.(cows := s.cows[w.L := Cow(w, Writing, s.st.origin[w.L], p, [])],
       st := s.st.(used := s.st.used + {p}), dirty := s.dirty + {p})
  }

  lemma WholeGiven(s: Sys, w: Write, p: nat)
    requires w.L < |s.st.origin| && p < s.st.R && p !in s.st.used
    ensures Given(s.(cows := s.cows[w.L := Cow(w, Waiting, 0, 0, [])]), WholeStart(s, w, p), w.L, p)
  {
    var s1 := s.(cows := s.cows[w.L := Cow(w, Waiting, 0, 0, [])]);
    var c := Cow(w, Writing, s.st.origin[w.L], p, []);
    assert s1.cows[w.L := c] == s.cows[w.L := c];
  }

  lemma WholeKeeps(s: Sys, w: Write, p: nat)
    requires Inv(s) && GoodWrite(s, w) && !s.suspended && w.L !in s.cows && Shared(s.st, w.L)
    requires w.L < |s.st.origin| && p < s.st.R && p !in s.st.used
    ensures Inv(WholeStart(s, w, p))
  {
    hide *;
    StartKeeps(s, w);
    WholeGiven(s, w, p);
    GiveKeeps(s.(cows := s.cows[w.L := Cow(w, Waiting, 0, 0, [])]), WholeStart(s, w, p), w.L, p);
  }

  lemma MapKeeps(s: Sys, w: Write, p: nat)
    requires Inv(s) && Can(s, Map(w, p))
    ensures Inv(MapWrite(s, w, p))
  {
    hide Inv, Shared, Whole;
    match Judge(s, w, p) {
      case InPlace =>
        assert !Shared(s.st, w.L) by { NoSnapsNoShare(s.st, w.L); }
        PlaceKeeps(s, w);
      case Waits => WaitKeeps(s, w.L, w);
      case Parked => ParkKeeps(s, w);
      case StartsPartial => StartKeeps(s, w);
      case StartsWhole => WholeKeeps(s, w, p);
      case _ =>
    }
  }

  lemma NoSnapsNoShare(st: St, L: nat)
    ensures st.snaps == [] ==> !Shared(st, L)
  {
  }

  lemma TrimKeeps(s: Sys, w: Write)
    requires Inv(s) && Can(s, Trim(w))
    ensures Inv(MapTrim(s, w))
  {
    hide Inv, Shared;
    if w.L in s.cows {
      WaitKeeps(s, w.L, w);
    } else if !Shared(s.st, w.L) {
      PlaceKeeps(s, w);
    }
  }

  lemma NoRowGone(s: Sys, L: nat, t: Sys)
    requires L in s.cows && s.cows[L].at.Waiting? && t == Over(s, {L})
    ensures Gone(s, t, {L}) && t.overflow == if s.hold || {L} == {} then s.overflow else []
    ensures t.st.used == s.st.used - FreshRows(s, {L}) && {L} <= s.cows.Keys
    ensures t.lost == s.lost && t.broken == s.broken && t.batch == s.batch && t.pending == s.pending
    ensures t.cows == s.cows - {L} && SamePhases(s, t)
  {
    assert FreshRows(s, {L}) == {};
  }

  /** no free row: the write fails and its COW is over */
  lemma NoRowKeeps(s: Sys, L: nat)
    requires Inv(s) && L in s.cows && s.cows[L].at.Waiting?
    ensures Inv(Over(s, {L}))
  {
    hide *;
    var t := Over(s, {L});
    NoRowGone(s, L, t);
    InvParts(s);
    GoneCows(s, t, {L});
    GoneUsed(s, t, {L});
    GoneRows(s, t, {L});
    GoneMode(s, t, {L});
    NoRowRest(s, t, L);
    InvFrom(t);
  }

  lemma NoRowRest(s: Sys, t: Sys, L: nat)
    requires Gone(s, t, {L}) && L in s.cows && s.cows[L].at.Waiting? && SamePhases(s, t) && t.cows == s.cows - {L}
    requires t.lost == s.lost && t.broken == s.broken && t.batch == s.batch && t.pending == s.pending
    requires t.st.used == s.st.used - FreshRows(s, {L})
    requires ItemsOk(s) && FlushedOk(s) && LostOk(s)
    ensures ItemsOk(t) && FlushedOk(t) && LostOk(t)
  {
    assert FreshRows(s, {L}) == {};
    hide *;
    GoneSame(s, t, {L});
    SameCommands(s, t);
    FrameItems(s, t);
    WaitingNotFlushed(s, t, L);
    LostNewUsed(s);
    FrameLost(s, t);
  }

  lemma GoneSame(s: Sys, t: Sys, gone: set<nat>)
    requires Gone(s, t, gone)
    ensures SameMaps(s, t) && t.hold == s.hold && t.suspended == s.suspended && t.dirty == s.dirty
    ensures forall L :: L in t.cows ==> L in s.cows && t.cows[L] == s.cows[L]
  {
  }

  lemma WaitingNotFlushed(s: Sys, t: Sys, L: nat)
    requires FlushedOk(s) && ItemsOk(s) && L in s.cows && s.cows[L].at.Waiting?
    requires t.cows == s.cows - {L} && t.batch == s.batch && t.dirty == s.dirty
    ensures FlushedOk(t)
  {
    hide OpOk;
    if Flushed(s) {
      forall i | 0 <= i < |s.batch.items| ensures ItemOk(s, s.batch.items[i]) {
        BatchItem(s, i);
      }
    }
  }

  lemma AllocKeeps(s: Sys, L: nat, p: nat)
    requires Inv(s) && CanAlloc(s, L, p)
    ensures Inv(DoAlloc(s, L, p))
  {
    hide Inv, Over;
    if p >= s.st.R {
      NoRowKeeps(s, L);
    } else {
      assert Given(s, DoAlloc(s, L, p), L, p);
      GiveKeeps(s, DoAlloc(s, L, p), L, p);
    }
  }

  lemma DataKeeps(s: Sys, L: nat, ok: bool)
    requires Inv(s) && CanFinishData(s, L)
    ensures Inv(FinishData(s, L, ok))
  {
    var c := s.cows[L];
    var t := FinishData(s, L, ok);
    hide Inv;
    if !ok {
      assert QueuedUp(s, t, L, ok);
      QueueKeeps(s, t, L, ok);
    } else {
      CowData(s, L);
      var row := Overlay(s.rows[c.oldP], c.w);
      var s1 := s.(rows := s.rows[c.newP := row]);
      WritingInFlight(s, L);
      RowKeeps(s, c.newP, row);
      assert QueuedUp(s1, t, L, ok);
      CowFilled(s1, L, s.rows[c.oldP]);
      QueueKeeps(s1, t, L, ok);
    }
  }

  lemma CowData(s: Sys, L: nat)
    requires Inv(s) && L in s.cows && s.cows[L].at.Writing? && s.cows[L].oldP in s.rows
    ensures CowOk(s, s.cows[L]) && s.cows[L].newP < s.st.R && s.cows[L].oldP != s.cows[L].newP
    ensures |s.rows[s.cows[L].oldP]| == s.rs && s.cows[L].w.off + |s.cows[L].w.data| <= s.rs
  {
    InvParts(s);
    hide Inv;
    CowAt(s, L);
    NewRowFree(s, L);
    CoherentParts(s.st);
    RedirectRows(s.st, s.cows[L].w.L, s.cows[L].oldP, s.cows[L].newP);
    hide Coherent, Owner, OpOk, Shared;
  }

  lemma CowFilled(s: Sys, L: nat, was: Row)
    requires Inv(s) && L in s.cows && s.cows[L].at.Writing? && s.cows[L].w.off + |s.cows[L].w.data| <= |was| == s.rs
    requires s.cows[L].oldP in s.rows && s.rows[s.cows[L].oldP] == was
    requires s.cows[L].newP in s.rows && s.rows[s.cows[L].newP] == Overlay(was, s.cows[L].w)
    ensures CowOk(s, s.cows[L].(at := Queued(true)))
  {
    InvParts(s);
    hide Inv;
    CowAt(s, L);
    hide Shared, OpOk;
  }

  lemma PlacedKeeps(s: Sys, id: nat)
    requires Inv(s) && Can(s, PlaceDone(id))
    ensures Inv(s.(ios := s.ios - {id}, rows := s.rows[s.ios[id].P := Overlay(s.rows[s.ios[id].P], s.ios[id].w)]))
  {
    var P, row := s.ios[id].P, Overlay(s.rows[s.ios[id].P], s.ios[id].w);
    RowSize(s, P);
    assert P in InFlight(s);
    hide Inv;
    RowKeeps(s, P, row);
    IoOver(s.(rows := s.rows[P := row]), id);
  }

  lemma RowSize(s: Sys, P: nat)
    requires Inv(s) && P in s.rows
    ensures |s.rows[P]| == s.rs
  {
  }

  lemma GathersKeeps(s: Sys)
    requires Inv(s) && s.batch.Idle?
    ensures Inv(DoGather(s))
  {
    var gone := Redirs(s.pending) - Redirs(Kept(s, s.pending));
    assert Gathers(s, DoGather(s), gone);
    hide Inv, DoGather, Gathers;
    GatherKeeps(s, DoGather(s), gone);
  }

  lemma FailsKeeps(s: Sys)
    requires Inv(s) && !s.batch.Idle?
    ensures Inv(DoFail(s))
  {
    hide *;
    FailIs(s);
    FailKeeps(s, DoFail(s), Redirs(s.batch.items));
  }

  lemma FailIs(s: Sys)
    requires !s.batch.Idle?
    ensures Fails(s, DoFail(s), Redirs(s.batch.items))
  {
    var gone := Redirs(s.batch.items);
    hide FreshRows, Redirs, Ops;
    if s.batch.Gathered? {
      assert Gone(s, DoFail(s), gone);
    } else {
      assert Gone(s, DoFail(s), gone);
    }
    hide Gone;
  }

  lemma CommitsKeeps(s: Sys)
    requires Inv(s) && CanCommit(s)
    ensures Inv(DoCommit(s))
  {
    var ops, gone := Ops(s.cows, s.batch.items), Redirs(s.batch.items);
    hide Inv, Freeze, OpsOk;
    assert Commits(s, DoCommit(s), ops, gone);
    hide DoCommit, Commits;
    CommitKeeps(s, DoCommit(s), ops, gone);
  }

  lemma CutsKeeps(s: Sys, k: nat, rows: map<nat, Row>)
    requires Inv(s) && CanCut(s, k, rows)
    ensures Inv(DoCut(s, k, rows))
  {
    var ops := InDoubt(s)[..k];
    InDoubtOk(s);
    PrefixOk(s.st, InDoubt(s), k);
    BatchApplies(s.st, ops);
    CoherentParts(ApplyAll(s.st, ops));
    hide Inv, Freeze, OpsOk, InDoubt, BatchOk, Coherent, Settled, UsedCovers;
    assert Cuts(s, DoCut(s, k, rows), ops);
    hide DoCut, Cuts;
    CutKeeps(s, DoCut(s, k, rows), ops);
  }

  /** Every step of the machine keeps its invariant. */
  lemma StepKeeps(s: Sys, step: Step)
    requires Inv(s) && Can(s, step)
    ensures Inv(Do(s, step))
  {
    hide Inv, MapWrite, MapTrim, DoAlloc, FinishData, DoGather, DoCommit, DoFail, DoCut, InFlight, CanCut, CanCommit;
    match step {
      case Map(w, p) => MapKeeps(s, w, p);
      case Alloc(L, p) => AllocKeeps(s, L, p);
      case Scribble(P, row) => RowKeeps(s, P, row);
      case PlaceDone(id) => PlacedKeeps(s, id);
      case Trim(w) => TrimKeeps(s, w);
      case DataDone(L, ok) => DataKeeps(s, L, ok);
      case Gather => GathersKeeps(s);
      case Flush => FlushKeeps(s);
      case Record => RecordKeeps(s);
      case Commit => CommitsKeeps(s);
      case Fail => FailsKeeps(s);
      case Hold => HoldKeeps(s);
      case Suspend => SuspendKeeps(s);
      case Issue(op) => IssueKeeps(s, op);
      case Resume => ResumeKeeps(s);
      case Unhold => UnholdKeeps(s);
      case PowerCut(k, rows) => CutsKeeps(s, k, rows);
    }
  }
}
