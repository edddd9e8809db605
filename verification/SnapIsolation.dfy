/** What every step of the COW machine keeps, and so every run: one COW a row, redirects that
    are right when applied, commands only on a drained array, no write stranded, rows accounted
    for -- and snapshots that never change. */
module SnapIsolation {
  import opened SnapState
  import opened SnapWalk
  import opened SnapDerive
  import opened SnapStored
  import opened SnapPrivate
  import opened SnapCow

  // ---- the invariant -----------------------------------------------------------------------

  ghost predicate RowsWhole(s: Sys) {
    && Coherent(s.st)
    && (forall P: nat :: P in s.rows <==> P < s.st.R)
    && (forall P :: P in s.rows ==> |s.rows[P]| == s.rs)
  }

  /** only rows no snapshot reads are dirty, and all that I/O is on its way to are */
  ghost predicate DirtyPrivate(s: Sys) {
    && (forall P :: P in s.dirty ==> P < s.st.R && Private(s.st, P))
    && InFlight(s) <= s.dirty
  }

  /** the row is still shared and, once the COW has its row, the redirect right as it stands;
      when its data is done newP holds the old row with the write over it */
  ghost predicate CowOk(s: Sys, c: Cow) {
    && GoodWrite(s, c.w) && Shared(s.st, c.w.L)
    && (!c.at.Waiting? ==> OpOk(s.st, Redirect(c.w.L, c.oldP, c.newP)) && c.newP in s.st.used)
    && (c.at == Queued(true) ==> (c.newP in s.rows && c.oldP in s.rows
          && |s.rows[c.oldP]| == s.rs && s.rows[c.newP] == Overlay(s.rows[c.oldP], c.w)))
  }

  ghost predicate CowsOk(s: Sys) {
    && (forall L :: L in s.cows ==> s.cows[L].w.L == L && CowOk(s, s.cows[L]))
    && (forall L, M :: L in s.cows && M in s.cows && L != M && !s.cows[L].at.Waiting? && !s.cows[M].at.Waiting? ==>
          s.cows[L].newP != s.cows[M].newP)
  }

  /** in-place I/O goes to the origin's own row, which the newest snapshot does not share */
  ghost predicate IosOk(s: Sys) {
    forall id :: id in s.ios ==> IoOk(s, s.ios[id])
  }

  ghost predicate IoOk(s: Sys, io: Io) {
    GoodWrite(s, io.w) && io.P == s.st.origin[io.w.L] && !Shared(s.st, io.w.L)
  }

  predicate SameKey(a: Item, b: Item) {
    (a.Cmd? && b.Cmd?) || (a.Redir? && b.Redir? && a.L == b.L)
  }

  ghost predicate ItemOk(s: Sys, item: Item) {
    match item
    case Redir(L) => L in s.cows && s.cows[L].at.Queued?
    case Cmd(op) =>
      && !op.Redirect? && OpOk(s.st, op)
      && (op.Create? || op.Destroy? ==> s.hold && s.suspended)
  }

  /** what is queued: each once, in step with the COWs; at most one command */
  ghost predicate ItemsOk(s: Sys) {
    && (forall i :: 0 <= i < |Items(s)| ==> ItemOk(s, Items(s)[i]))
    && (forall i, j :: 0 <= i < j < |Items(s)| ==> !SameKey(Items(s)[i], Items(s)[j]))
    && (forall L :: L in s.cows && s.cows[L].at.Queued? ==> exists i :: 0 <= i < |Items(s)| && Items(s)[i] == Redir(L))
    && (forall i :: 0 <= i < |BatchItems(s.batch)| ==> !Failed(s, BatchItems(s.batch)[i]))
  }

  /** suspended means drained; a parked write has hold or a full set of COWs to wait for */
  ghost predicate ModeOk(s: Sys) {
    && s.slots > 0
    && (s.suspended ==> s.hold && s.cows == map[] && s.ios == map[])
    && (s.overflow != [] ==> s.hold || |s.cows| >= s.slots)
  }

  /** the batch's data is flushed */
  predicate Flushed(s: Sys) {
    s.batch.Recording? || (s.batch.Gathered? && s.batch.flushed)
  }

  ghost predicate FlushedOk(s: Sys) {
    Flushed(s) ==>
      forall i :: 0 <= i < |s.batch.items| ==>
        match s.batch.items[i]
        case Redir(L) => L in s.cows && s.cows[L].newP !in s.dirty
        case Cmd(op) => op.Create? ==> s.dirty == {}
  }

  ghost predicate LostOk(s: Sys) {
    && (s.lost != [] ==> s.broken)
    && (s.batch.Recording? ==> !s.broken)
    && BatchOk(s.st, s.lost)
    && forall i :: 0 <= i < |s.lost| && s.lost[i].Redirect? ==>
         s.lost[i].newP in s.st.used && s.lost[i].newP !in s.dirty
         && forall L :: L in s.cows && !s.cows[L].at.Waiting? ==> s.cows[L].newP != s.lost[i].newP
  }

  ghost function LostRows(s: Sys): set<nat> {
    set i | 0 <= i < |s.lost| && s.lost[i].Redirect? :: s.lost[i].newP
  }

  /** no row is lost track of: each used one is owned, a COW's, or named by a record in doubt */
  ghost predicate UsedExact(s: Sys) {
    forall P: nat :: P in s.st.used <==>
      (P < s.st.R && !Owner(s.st, P).own.OwnFree?) || P in FreshRows(s, s.cows.Keys) || P in LostRows(s)
  }

  /** snapshot id reads what it read when it came into the chain */
  ghost predicate FrozenOk(s: Sys) {
    forall k :: 0 <= k < |s.st.snaps| ==>
      s.st.snaps[k].id in s.frozen && s.frozen[s.st.snaps[k].id] == Contents(s.st, s.rows, k)
  }

  ghost predicate Inv(s: Sys) {
    && RowsWhole(s) && DirtyPrivate(s) && CowsOk(s) && IosOk(s) && ItemsOk(s) && ModeOk(s)
    && FlushedOk(s) && LostOk(s) && UsedExact(s) && FrozenOk(s)
  }

  // ---- frames ---------------------------------------------------------------------------------------

  /** the maps are the same but for rows reserved or given back */
  ghost predicate SameMaps(s: Sys, t: Sys) {
    t.st == s.st.(used := t.st.used) && t.rs == s.rs && t.slots == s.slots
  }

  lemma SameMapsFacts(s: Sys, t: Sys)
    requires SameMaps(s, t)
    ensures forall P :: Owner(t.st, P) == Owner(s.st, P)
    ensures forall P :: Private(t.st, P) == Private(s.st, P)
    ensures forall L :: Shared(t.st, L) == Shared(s.st, L)
    ensures forall op :: OpOk(t.st, op) == OpOk(s.st, op)
    ensures forall w :: GoodWrite(t, w) == GoodWrite(s, w)
    ensures forall ops :: BatchOk(t.st, ops) == BatchOk(s.st, ops)
  {
    assert forall P :: Owner(t.st, P) == Owner(s.st, P);
    hide Owner;
    assert forall op :: OpOk(t.st, op) == OpOk(s.st, op);
  }

  lemma {:induction false} SameMapsWalk(st: St, used: set<nat>, k: nat, L: nat)
    requires k <= |st.snaps| && L < |st.origin|
    ensures Walk(st.(used := used), k, L) == Walk(st, k, L)
    decreases |st.snaps| - k
  {
    if k < |st.snaps| && L !in st.snaps[k].exc {
      SameMapsWalk(st, used, k + 1, L);
    }
  }

  /** contents are those of rows no snapshot's reader can see change */
  lemma ContentsKept(s: Sys, t: Sys, k: nat)
    requires Coherent(s.st) && SameMaps(s, t) && k < |s.st.snaps|
    requires forall P :: P in s.rows && !Private(s.st, P) ==> P in t.rows && t.rows[P] == s.rows[P]
    requires forall P :: P in t.rows ==> P in s.rows
    ensures Contents(t.st, t.rows, k) == Contents(s.st, s.rows, k)
  {
    assert s.st.O == |s.st.origin| by { CoherentParts(s.st); }
    hide Coherent, Private, Walk;
    forall L | 0 <= L < |s.st.origin|
      ensures Walk(t.st, k, L) == Walk(s.st, k, L) && !Private(s.st, Walk(s.st, k, L))
    {
      SameMapsWalk(s.st, t.st.used, k, L);
      ReadNotPrivate(s.st, k, L);
    }
  }

  lemma FrozenKept(s: Sys, t: Sys)
    requires Coherent(s.st) && SameMaps(s, t) && FrozenOk(s) && t.frozen == s.frozen
    requires forall P :: P in s.rows && !Private(s.st, P) ==> P in t.rows && t.rows[P] == s.rows[P]
    requires forall P :: P in t.rows ==> P in s.rows
    ensures FrozenOk(t)
  {
    hide Coherent, Private, Contents;
    forall k | 0 <= k < |t.st.snaps|
      ensures t.st.snaps[k].id in t.frozen && t.frozen[t.st.snaps[k].id] == Contents(t.st, t.rows, k)
    {
      ContentsKept(s, t, k);
    }
  }

  /** the maps stay coherent where used rows are exactly accounted for */
  lemma StaysCoherent(s: Sys, t: Sys)
    requires Coherent(s.st) && SameMaps(s, t) && UsedExact(t)
    requires forall P :: P in t.st.used ==> P < t.st.R
    ensures Coherent(t.st)
  {
    SameMapsFacts(s, t);
    ReserveCoherent(s.st, t.st.used);
  }

  // ---- steps that only change what waits for what ------------------------------------------------------

  /** maps, rows and what is in flight are as they were */
  predicate SameData(s: Sys, t: Sys) {
    && t.rs == s.rs && t.slots == s.slots && t.st == s.st && t.rows == s.rows && t.cows == s.cows && t.ios == s.ios
    && t.frozen == s.frozen && t.lost == s.lost && t.broken == s.broken
  }

  lemma SameDataKeeps(s: Sys, t: Sys)
    requires SameData(s, t)
    requires RowsWhole(s) && CowsOk(s) && IosOk(s) && UsedExact(s) && FrozenOk(s)
    ensures RowsWhole(t) && CowsOk(t) && IosOk(t) && UsedExact(t) && FrozenOk(t) && InFlight(t) == InFlight(s)
  {
    hide Coherent, OpOk, Owner, Contents, Shared;
    forall L | L in t.cows ensures t.cows[L].w.L == L && CowOk(t, t.cows[L]) {
      assert CowOk(s, s.cows[L]);
    }
    assert LostRows(t) == LostRows(s) && FreshRows(t, t.cows.Keys) == FreshRows(s, s.cows.Keys);
    assert forall id :: id in t.ios ==> IoOk(t, t.ios[id]);
  }

  /** create and destroy have the array drained, before and after */
  ghost predicate CommandsReady(s: Sys, t: Sys) {
    forall i :: 0 <= i < |Items(s)| && Items(s)[i].Cmd? && (Items(s)[i].op.Create? || Items(s)[i].op.Destroy?) ==>
      t.hold && t.suspended
  }

  lemma SameItems(s: Sys, t: Sys)
    requires SameData(s, t) && ItemsOk(s) && Items(t) == Items(s) && BatchItems(t.batch) == BatchItems(s.batch)
    requires CommandsReady(s, t)
    ensures ItemsOk(t)
  {
    hide OpOk;
    forall i | 0 <= i < |Items(t)| ensures ItemOk(t, Items(t)[i]) {
      assert ItemOk(s, Items(s)[i]);
    }
    assert forall item :: Failed(t, item) == Failed(s, item);
  }

  lemma SameLost(s: Sys, t: Sys)
    requires SameData(s, t) && LostOk(s) && t.dirty <= s.dirty && (t.batch.Recording? ==> !t.broken)
    ensures LostOk(t)
  {
    hide BatchOk;
  }

  lemma SameCommands(s: Sys, t: Sys)
    requires ItemsOk(s) && t.hold == s.hold && t.suspended == s.suspended
    ensures CommandsReady(s, t)
  {
    hide OpOk;
    forall i | 0 <= i < |Items(s)| && Items(s)[i].Cmd? ensures ItemOk(s, Items(s)[i]) {
    }
  }

  lemma SameFlushed(s: Sys, t: Sys)
    requires SameData(s, t) && FlushedOk(s) && t.dirty == s.dirty && BatchItems(t.batch) == BatchItems(s.batch)
    requires Flushed(t) ==> Flushed(s)
    ensures FlushedOk(t)
  {
  }

  lemma SameDirty(s: Sys, t: Sys)
    requires DirtyPrivate(s) && t.st == s.st && InFlight(t) == InFlight(s) && t.dirty == s.dirty
    ensures DirtyPrivate(t)
  {
    hide InFlight, Private;
  }

  lemma InvParts(s: Sys)
    requires Inv(s)
    ensures RowsWhole(s) && Coherent(s.st) && DirtyPrivate(s) && CowsOk(s) && IosOk(s) && ItemsOk(s) && ModeOk(s)
    ensures FlushedOk(s) && LostOk(s) && UsedExact(s) && FrozenOk(s)
  {
  }

  lemma InvFrom(s: Sys)
    requires RowsWhole(s) && DirtyPrivate(s) && CowsOk(s) && IosOk(s) && ItemsOk(s) && ModeOk(s)
    requires FlushedOk(s) && LostOk(s) && UsedExact(s) && FrozenOk(s)
    ensures Inv(s)
  {
    hide *;
    assert Inv(s) by { InvIs(s); }
  }

  lemma InvIs(s: Sys)
    ensures Inv(s) <==> (RowsWhole(s) && DirtyPrivate(s) && CowsOk(s) && IosOk(s) && ItemsOk(s) && ModeOk(s)
      && FlushedOk(s) && LostOk(s) && UsedExact(s) && FrozenOk(s))
  {
    hide RowsWhole, DirtyPrivate, CowsOk, IosOk, ItemsOk, ModeOk, FlushedOk, LostOk, UsedExact, FrozenOk;
  }

  /** a change of modes alone */
  lemma ModeKeeps(s: Sys, t: Sys)
    requires Inv(s) && SameData(s, t) && t.dirty == s.dirty && t.pending == s.pending && t.batch == s.batch
    requires ModeOk(t) && CommandsReady(s, t)
    ensures Inv(t)
  {
    assert (t.batch.Recording? ==> !t.broken) && Items(t) == Items(s) && Flushed(t) == Flushed(s) && t.dirty <= s.dirty by {
      assert LostOk(s);
    }
    assert t.st == s.st;
    hide *;
    InvParts(s);
    SameDataKeeps(s, t);
    SameLost(s, t);
    SameItems(s, t);
    SameFlushed(s, t);
    SameDirty(s, t);
    InvFrom(t);
  }

  lemma HoldKeeps(s: Sys)
    requires Inv(s) && !s.hold
    ensures Inv(s.(hold := true))
  {
    assert ModeOk(s) && ItemsOk(s);
    hide Inv, OpOk;
    forall i | 0 <= i < |Items(s)| && Items(s)[i].Cmd? ensures ItemOk(s, Items(s)[i]) {
    }
    ModeKeeps(s, s.(hold := true));
  }

  lemma SuspendKeeps(s: Sys)
    requires Inv(s) && s.hold && !s.suspended && s.cows == map[] && s.ios == map[]
    ensures Inv(s.(suspended := true))
  {
    assert ModeOk(s);
    hide Inv;
    ModeKeeps(s, s.(suspended := true));
  }

  lemma ResumeKeeps(s: Sys)
    requires Inv(s) && s.suspended && !Issued(s)
    ensures Inv(s.(suspended := false))
  {
    assert ModeOk(s);
    hide Inv;
    ModeKeeps(s, s.(suspended := false));
  }

  lemma UnholdKeeps(s: Sys)
    requires Inv(s) && s.hold && !s.suspended
    ensures Inv(s.(hold := false, overflow := []))
  {
    assert ModeOk(s) && ItemsOk(s);
    hide Inv, OpOk;
    forall i | 0 <= i < |Items(s)| && Items(s)[i].Cmd? ensures ItemOk(s, Items(s)[i]) {
    }
    ModeKeeps(s, s.(hold := false, overflow := []));
  }

  lemma IssuedItems(s: Sys, op: Op, t: Sys)
    requires ItemsOk(s) && CanIssue(s, op) && t == s.(pending := s.pending + [Cmd(op)])
    ensures ItemsOk(t)
  {
    assert Items(t) == Items(s) + [Cmd(op)];
    assert forall i :: 0 <= i < |Items(s)| ==> !Items(s)[i].Cmd?;
    hide OpOk, Items, Issued;
    forall i | 0 <= i < |Items(t)| ensures ItemOk(t, Items(t)[i]) {
      assert i < |Items(s)| ==> ItemOk(s, Items(s)[i]);
    }
    forall L | L in t.cows && t.cows[L].at.Queued? ensures exists i :: 0 <= i < |Items(t)| && Items(t)[i] == Redir(L) {
      var i :| 0 <= i < |Items(s)| && Items(s)[i] == Redir(L);
      assert Items(t)[i] == Redir(L);
    }
    assert forall item :: Failed(t, item) == Failed(s, item);
  }

  lemma IssueKeeps(s: Sys, op: Op)
    requires Inv(s) && CanIssue(s, op)
    ensures Inv(s.(pending := s.pending + [Cmd(op)]))
  {
    var t := s.(pending := s.pending + [Cmd(op)]);
    InvParts(s);
    IssuedItems(s, op, t);
    hide Inv, CanIssue, RowsWhole, CowsOk, IosOk, UsedExact, FrozenOk, ItemsOk, DirtyPrivate;
    SameDataKeeps(s, t);
    SameLost(s, t);
    SameFlushed(s, t);
    SameDirty(s, t);
    InvFrom(t);
  }

  /** a COW's new row is on nobody's way once its data is done */
  lemma NewRowQuiet(s: Sys, L: nat)
    requires CowsOk(s) && IosOk(s) && Coherent(s.st) && L in s.cows && s.cows[L].at.Queued?
    ensures s.cows[L].newP !in InFlight(s)
  {
    CoherentParts(s.st);
    var P := s.cows[L].newP;
    assert CowOk(s, s.cows[L]) && Owner(s.st, P).own.OwnFree?;
    hide Coherent, Owner, OpOk, CowOk;
    forall id | id in s.ios ensures s.ios[id].P != P {
      assert IoOk(s, s.ios[id]);
    }
  }

  lemma FlushedItems(s: Sys, t: Sys)
    requires CowsOk(s) && IosOk(s) && Coherent(s.st) && ItemsOk(s) && ModeOk(s) && s.batch.Gathered?
    requires SameData(s, t) && t.dirty == InFlight(s) && BatchItems(t.batch) == s.batch.items
    ensures FlushedOk(t)
  {
    hide CowsOk, IosOk, Coherent, OpOk;
    forall i | 0 <= i < |s.batch.items|
      ensures match s.batch.items[i]
              case Redir(L) => L in t.cows && t.cows[L].newP !in t.dirty
              case Cmd(op) => op.Create? ==> t.dirty == {}
    {
      var item := s.batch.items[i];
      assert Items(s)[i] == item && ItemOk(s, Items(s)[i]);
      if item.Redir? {
        NewRowQuiet(s, item.L);
      }
    }
  }

  lemma FlushKeeps(s: Sys)
    requires Inv(s) && s.batch.Gathered?
    ensures Inv(s.(dirty := InFlight(s), batch := s.batch.(flushed := true)))
  {
    var t := s.(dirty := InFlight(s), batch := s.batch.(flushed := true));
    InvParts(s);
    hide Inv, RowsWhole, CowsOk, IosOk, UsedExact, FrozenOk, ItemsOk, InFlight, Private;
    SameDataKeeps(s, t);
    SameCommands(s, t);
    SameItems(s, t);
    SameLost(s, t);
    FlushedItems(s, t);
    InvFrom(t);
  }

  lemma RecordKeeps(s: Sys)
    requires Inv(s) && s.batch.Gathered? && !s.broken && (NeedsFlush(s.batch.items) ==> s.batch.flushed)
    ensures Inv(s.(batch := Recording(s.batch.items)))
  {
    var t := s.(batch := Recording(s.batch.items));
    InvParts(s);
    hide Inv, RowsWhole, CowsOk, IosOk, UsedExact, FrozenOk, ItemsOk, DirtyPrivate;
    SameDataKeeps(s, t);
    SameCommands(s, t);
    SameItems(s, t);
    SameLost(s, t);
    SameDirty(s, t);
    if s.batch.flushed {
      SameFlushed(s, t);
    } else {
      assert forall i :: 0 <= i < |t.batch.items| ==> t.batch.items[i].Cmd? && !t.batch.items[i].op.Create?;
    }
    InvFrom(t);
  }

  // ---- data on its way -------------------------------------------------------------------------------------

  /** the rows a COW reads and fills are not ones I/O is on its way to */
  lemma CowRowsQuiet(s: Sys, L: nat, P: nat)
    requires CowsOk(s) && IosOk(s) && Coherent(s.st) && DirtyPrivate(s) && P in InFlight(s)
    requires L in s.cows && s.cows[L].at.Queued?
    ensures P != s.cows[L].oldP && P != s.cows[L].newP
  {
    NewRowQuiet(s, L);
    CoherentParts(s.st);
    assert CowOk(s, s.cows[L]);
    var oldP := s.cows[L].oldP;
    assert !Private(s.st, oldP) by {
      assert s.st.origin[L] == oldP && Owner(s.st, oldP) == Ent(L, OwnOrigin);
    }
    assert Private(s.st, P);
  }

  // what each part of the invariant depends on

  lemma FrameIos(s: Sys, t: Sys)
    requires IosOk(s) && SameMaps(s, t) && forall id :: id in t.ios ==> id in s.ios && t.ios[id] == s.ios[id]
    ensures IosOk(t)
  {
    forall id | id in t.ios ensures IoOk(t, t.ios[id]) {
      assert IoOk(s, s.ios[id]);
    }
  }

  ghost predicate RowsFor(s: Sys, t: Sys, c: Cow) {
    c.at == Queued(true) ==>
      (c.newP in s.rows ==> c.newP in t.rows && t.rows[c.newP] == s.rows[c.newP])
      && (c.oldP in s.rows ==> c.oldP in t.rows && t.rows[c.oldP] == s.rows[c.oldP])
  }

  lemma FrameCow(s: Sys, t: Sys, c: Cow)
    requires CowOk(s, c) && SameMaps(s, t) && RowsFor(s, t, c)
    requires !c.at.Waiting? ==> c.newP in t.st.used
    ensures CowOk(t, c)
  {
    SameMapsFacts(s, t);
    hide OpOk, Shared;
  }

  lemma FrameCows(s: Sys, t: Sys)
    requires CowsOk(s) && SameMaps(s, t)
    requires forall L :: L in t.cows ==> L in s.cows && t.cows[L] == s.cows[L] && RowsFor(s, t, s.cows[L])
                                         && (!s.cows[L].at.Waiting? ==> s.cows[L].newP in t.st.used)
    ensures CowsOk(t)
  {
    hide CowOk, RowsFor, SameMaps;
    forall L | L in t.cows ensures t.cows[L].w.L == L && CowOk(t, t.cows[L]) {
      FrameCow(s, t, s.cows[L]);
    }
  }

  predicate SamePhases(s: Sys, t: Sys) {
    && (forall L :: L in s.cows && s.cows[L].at.Queued? ==> L in t.cows && t.cows[L].at == s.cows[L].at)
    && (forall L :: L in t.cows && t.cows[L].at.Queued? ==> L in s.cows && s.cows[L].at == t.cows[L].at)
  }

  lemma FrameItems(s: Sys, t: Sys)
    requires ItemsOk(s) && SameMaps(s, t) && SamePhases(s, t) && CommandsReady(s, t)
    requires t.pending == s.pending && t.batch == s.batch
    ensures ItemsOk(t)
  {
    SameMapsFacts(s, t);
    hide OpOk, SameMaps;
    assert Items(t) == Items(s);
    forall i | 0 <= i < |Items(t)| ensures ItemOk(t, Items(t)[i]) {
      assert ItemOk(s, Items(s)[i]);
    }
    hide Items;
    forall i | 0 <= i < |BatchItems(t.batch)| ensures !Failed(t, BatchItems(t.batch)[i]) {
      assert !Failed(s, BatchItems(s.batch)[i]);
    }
  }

  lemma FrameFlushed(s: Sys, t: Sys)
    requires FlushedOk(s) && t.batch == s.batch && t.dirty == s.dirty
    requires forall L :: L in s.cows ==> L in t.cows && (!s.cows[L].at.Waiting? ==> t.cows[L].newP == s.cows[L].newP)
    requires ItemsOk(s)
    ensures FlushedOk(t)
  {
    hide OpOk;
    if Flushed(s) {
      forall i | 0 <= i < |s.batch.items| ensures ItemOk(s, s.batch.items[i]) {
        assert Items(s)[i] == s.batch.items[i];
      }
    }
  }

  lemma FrameLost(s: Sys, t: Sys)
    requires LostOk(s) && SameMaps(s, t) && t.lost == s.lost && t.broken == s.broken && t.dirty == s.dirty
    requires t.batch == s.batch
    requires forall i :: 0 <= i < |s.lost| && s.lost[i].Redirect? ==> s.lost[i].newP in t.st.used
    requires forall L :: L in t.cows && !t.cows[L].at.Waiting? ==>
      (L in s.cows && !s.cows[L].at.Waiting? && s.cows[L].newP == t.cows[L].newP)
    ensures LostOk(t)
  {
    SameMapsFacts(s, t);
    hide BatchOk;
  }

  lemma FrameUsed(s: Sys, t: Sys)
    requires UsedExact(s) && t.st == s.st && t.lost == s.lost
    requires FreshRows(t, t.cows.Keys) == FreshRows(s, s.cows.Keys)
    ensures UsedExact(t)
  {
    assert LostRows(t) == LostRows(s);
    hide Owner, FreshRows, LostRows;
  }

  lemma RowsForRow(s: Sys, P: nat, row: Row, L: nat)
    requires CowsOk(s) && IosOk(s) && Coherent(s.st) && DirtyPrivate(s) && P in InFlight(s) && L in s.cows
    ensures RowsFor(s, s.(rows := s.rows[P := row]), s.cows[L])
  {
    hide CowsOk, IosOk, Coherent, DirtyPrivate, InFlight;
    if s.cows[L].at.Queued? {
      CowRowsQuiet(s, L, P);
    }
  }

  lemma RowCows(s: Sys, P: nat, row: Row)
    requires CowsOk(s) && IosOk(s) && Coherent(s.st) && DirtyPrivate(s) && P in InFlight(s)
    ensures CowsOk(s.(rows := s.rows[P := row]))
  {
    hide *;
    var t := s.(rows := s.rows[P := row]);
    SameMapsTrivially(s, t);
    CowNewUsed(s);
    forall L | L in s.cows ensures RowsFor(s, t, s.cows[L]) {
      RowsForRow(s, P, row, L);
    }
    FrameCows(s, t);
  }

  lemma SameMapsTrivially(s: Sys, t: Sys)
    requires t.st == s.st && t.rs == s.rs && t.slots == s.slots
    ensures SameMaps(s, t)
  {
  }

  lemma SameCowsTrivially(s: Sys, t: Sys)
    requires t.cows == s.cows
    ensures SamePhases(s, t) && FreshRows(t, t.cows.Keys) == FreshRows(s, s.cows.Keys)
    ensures t.ios == s.ios ==> InFlight(t) == InFlight(s)
    ensures t.ios.Keys <= s.ios.Keys && (forall id :: id in t.ios ==> t.ios[id] == s.ios[id]) ==> InFlight(t) <= InFlight(s)
    ensures t.rows == s.rows ==> forall L :: L in s.cows ==> RowsFor(s, t, s.cows[L])
  {
  }

  lemma InFlightPrivate(s: Sys, P: nat)
    requires DirtyPrivate(s) && P in InFlight(s)
    ensures Private(s.st, P) && P < s.st.R
  {
    hide Private, InFlight;
  }

  /** rows, and whatever is read off them, with one row I/O was on its way to changed */
  lemma RowRows(s: Sys, P: nat, row: Row)
    requires RowsWhole(s) && FrozenOk(s) && Private(s.st, P) && P < s.st.R && |row| == s.rs
    ensures RowsWhole(s.(rows := s.rows[P := row])) && FrozenOk(s.(rows := s.rows[P := row]))
  {
    var t := s.(rows := s.rows[P := row]);
    hide Private, Coherent, FrozenOk;
    FrozenKept(s, t);
  }

  /** I/O on its way to a row changes nothing that anything else relies on */
  lemma RowKeeps(s: Sys, P: nat, row: Row)
    requires Inv(s) && P in InFlight(s) && |row| == s.rs
    ensures Inv(s.(rows := s.rows[P := row]))
  {
    hide *;
    var t := s.(rows := s.rows[P := row]);
    InvParts(s);
    SameMapsTrivially(s, t);
    SameCowsTrivially(s, t);
    SameCommands(s, t);
    InFlightPrivate(s, P);
    RowCows(s, P, row);
    RowRows(s, P, row);
    FrameIos(s, t);
    FrameItems(s, t);
    FrameFlushed(s, t);
    LostNewUsed(s);
    FrameLost(s, t);
    FrameUsed(s, t);
    SameDirty(s, t);
    SameMode(s, t);
    InvFrom(t);
  }

  lemma SameMode(s: Sys, t: Sys)
    requires ModeOk(s) && t.slots == s.slots && t.suspended == s.suspended && t.hold == s.hold
    requires t.overflow == s.overflow && |t.cows| >= |s.cows|
    requires s.suspended ==> t.cows == s.cows && (s.ios == map[] ==> t.ios == map[])
    ensures ModeOk(t)
  {
  }

  lemma LostNewUsed(s: Sys)
    requires LostOk(s)
    ensures forall i :: 0 <= i < |s.lost| && s.lost[i].Redirect? ==> s.lost[i].newP in s.st.used
  {
    hide BatchOk;
  }

  lemma LessInFlight(s: Sys, t: Sys)
    requires DirtyPrivate(s) && t.st == s.st && t.dirty == s.dirty && InFlight(t) <= InFlight(s)
    ensures DirtyPrivate(t)
  {
    hide InFlight, Private;
  }

  lemma IoOver(s: Sys, id: nat)
    requires Inv(s) && id in s.ios
    ensures Inv(s.(ios := s.ios - {id}))
  {
    hide *;
    var t := s.(ios := s.ios - {id});
    InvParts(s);
    SameMapsTrivially(s, t);
    SameCowsTrivially(s, t);
    SameCommands(s, t);
    CowNewUsed(s);
    FrameCows(s, t);
    RowsUntouched(s, t);
    FrameIos(s, t);
    FrameItems(s, t);
    FrameFlushed(s, t);
    LostNewUsed(s);
    FrameLost(s, t);
    FrameUsed(s, t);
    LessInFlight(s, t);
    SameMode(s, t);
    InvFrom(t);
  }

  lemma RowsUntouched(s: Sys, t: Sys)
    requires RowsWhole(s) && FrozenOk(s) && t.st == s.st && t.rows == s.rows && t.rs == s.rs && t.frozen == s.frozen
    ensures RowsWhole(t) && FrozenOk(t)
  {
    hide Coherent, Contents;
  }

  lemma CowNewUsed(s: Sys)
    requires CowsOk(s)
    ensures forall L :: L in s.cows && !s.cows[L].at.Waiting? ==> s.cows[L].newP in s.st.used
  {
    forall L | L in s.cows && !s.cows[L].at.Waiting? ensures s.cows[L].newP in s.st.used {
      assert CowOk(s, s.cows[L]);
    }
  }

  // ---- one COW changed -----------------------------------------------------------------------------------------

  predicate OneCow(s: Sys, t: Sys, L: nat, c: Cow) {
    t.cows == s.cows[L := c] && t.rows == s.rows && t.ios == s.ios && s.st.used <= t.st.used
  }

  lemma OneCowOk(s: Sys, t: Sys, L: nat, c: Cow)
    requires CowsOk(s) && SameMaps(s, t) && OneCow(s, t, L, c) && c.w.L == L && CowOk(t, c)
    requires !c.at.Waiting? ==> forall M :: M in s.cows && M != L && !s.cows[M].at.Waiting? ==> s.cows[M].newP != c.newP
    ensures CowsOk(t)
  {
    CowNewUsed(s);
    hide CowOk, SameMaps;
    forall M | M in t.cows ensures t.cows[M].w.L == M && CowOk(t, t.cows[M]) {
      if M != L {
        FrameCow(s, t, s.cows[M]);
      }
    }
  }

  lemma OneCowInFlight(s: Sys, t: Sys, L: nat, c: Cow)
    requires OneCow(s, t, L, c)
    ensures InFlight(t) <= InFlight(s) + if c.at.Writing? then {c.newP} else {}
  {
  }

  /** the COW has the row it had */
  lemma OneCowSameRow(s: Sys, t: Sys, L: nat, c: Cow)
    requires OneCow(s, t, L, c) && L in s.cows
    requires c.newP == s.cows[L].newP && (c.at.Waiting? <==> s.cows[L].at.Waiting?)
    ensures FreshRows(t, t.cows.Keys) == FreshRows(s, s.cows.Keys) && |t.cows| == |s.cows|
    ensures forall M :: M in t.cows <==> M in s.cows
    ensures forall M :: M in s.cows ==> t.cows[M].newP == s.cows[M].newP && (s.cows[M].at.Waiting? <==> t.cows[M].at.Waiting?)
  {
    assert t.cows.Keys == s.cows.Keys;
  }

  /** the COW had no row */
  lemma OneCowNewRow(s: Sys, t: Sys, L: nat, c: Cow)
    requires OneCow(s, t, L, c) && (L in s.cows ==> s.cows[L].at.Waiting?)
    ensures FreshRows(t, t.cows.Keys) == FreshRows(s, s.cows.Keys) + if c.at.Waiting? then {} else {c.newP}
  {
    var x, y := FreshRows(t, t.cows.Keys), FreshRows(s, s.cows.Keys);
    forall P | P in y ensures P in x {
      var M :| M in s.cows && !s.cows[M].at.Waiting? && s.cows[M].newP == P;
      assert M in t.cows && t.cows[M] == s.cows[M];
    }
    assert L in t.cows && t.cows[L] == c;
  }

  lemma OneCowCount(s: Sys, t: Sys, L: nat, c: Cow)
    requires OneCow(s, t, L, c)
    ensures |t.cows| == if L in s.cows then |s.cows| else |s.cows| + 1
  {
    assert t.cows.Keys == s.cows.Keys + {L};
    assert L in s.cows ==> t.cows.Keys == s.cows.Keys;
  }

  lemma OneCowPhases(s: Sys, t: Sys, L: nat, c: Cow)
    requires OneCow(s, t, L, c)
    requires !(L in s.cows && s.cows[L].at.Queued?) || s.cows[L].at == c.at
    requires !c.at.Queued? || (L in s.cows && s.cows[L].at == c.at)
    ensures SamePhases(s, t)
  {
  }

  lemma DirtyGrows(s: Sys, t: Sys, more: set<nat>)
    requires DirtyPrivate(s) && SameMaps(s, t) && t.dirty == s.dirty + more && InFlight(t) <= InFlight(s) + more
    requires forall P :: P in more ==> P < s.st.R && Private(s.st, P)
    ensures DirtyPrivate(t)
  {
    SameMapsFacts(s, t);
    hide InFlight, Private, OpOk, BatchOk, Owner, Shared;
  }

  /** the COW is new and has no row, or has the row it had */
  predicate RowAsBefore(s: Sys, L: nat, c: Cow) {
    if L in s.cows then c.newP == s.cows[L].newP && (c.at.Waiting? <==> s.cows[L].at.Waiting?) else c.at.Waiting?
  }

  predicate RowsAsBefore(s: Sys, t: Sys) {
    && (forall M :: M in s.cows ==> M in t.cows && (!s.cows[M].at.Waiting? ==> t.cows[M].newP == s.cows[M].newP))
    && (forall M :: M in t.cows && !t.cows[M].at.Waiting? ==>
          (M in s.cows && !s.cows[M].at.Waiting? && s.cows[M].newP == t.cows[M].newP))
  }

  lemma OneCowRows(s: Sys, t: Sys, L: nat, c: Cow)
    requires OneCow(s, t, L, c) && RowAsBefore(s, L, c)
    ensures RowsAsBefore(s, t) && FreshRows(t, t.cows.Keys) == FreshRows(s, s.cows.Keys)
  {
    if L in s.cows {
      OneCowSameRow(s, t, L, c);
    } else {
      OneCowNewRow(s, t, L, c);
    }
    hide FreshRows;
  }

  lemma OneCowParts(s: Sys, t: Sys, L: nat, c: Cow)
    requires CowsOk(s) && DirtyPrivate(s) && t.st == s.st && t.rs == s.rs && t.slots == s.slots && t.dirty == s.dirty
    requires OneCow(s, t, L, c) && RowAsBefore(s, L, c) && c.w.L == L && CowOk(t, c)
    requires c.at.Writing? ==> L in s.cows && s.cows[L].at.Writing?
    ensures CowsOk(t) && DirtyPrivate(t)
  {
    assert !c.at.Waiting? ==> L in s.cows && !s.cows[L].at.Waiting? && c.newP == s.cows[L].newP;
    hide *;
    SameMapsTrivially(s, t);
    if L in s.cows {
      CowAt(s, L);
      WritingInFlight(s, L);
    }
    OneCowOk(s, t, L, c);
    OneCowInFlight(s, t, L, c);
    DirtyGrows(s, t, {});
  }

  lemma OneCowRest(s: Sys, t: Sys)
    requires RowsAsBefore(s, t) && FreshRows(t, t.cows.Keys) == FreshRows(s, s.cows.Keys)
    requires t == s.(cows := t.cows, pending := t.pending)
    requires FlushedOk(s) && LostOk(s) && ItemsOk(s) && UsedExact(s) && IosOk(s) && RowsWhole(s) && FrozenOk(s)
    ensures FlushedOk(t) && LostOk(t) && UsedExact(t) && IosOk(t) && RowsWhole(t) && FrozenOk(t)
  {
    assert forall M :: M in s.cows ==> M in t.cows && (!s.cows[M].at.Waiting? ==> t.cows[M].newP == s.cows[M].newP);
    assert forall M :: M in t.cows && !t.cows[M].at.Waiting? ==>
      (M in s.cows && !s.cows[M].at.Waiting? && s.cows[M].newP == t.cows[M].newP);
    hide *;
    SameMapsTrivially(s, t);
    RowsUntouched(s, t);
    FrameIos(s, t);
    FrameFlushed(s, t);
    LostNewUsed(s);
    FrameLost(s, t);
    FrameUsed(s, t);
  }

  // ---- writes coming in --------------------------------------------------------------------------------------

  /** the origin's row, where no snapshot shares it, is the origin's alone */
  lemma OwnRow(st: St, L: nat)
    requires Coherent(st) && L < st.O && !Shared(st, L)
    ensures L < |st.origin| && st.origin[L] < st.R && Owner(st, st.origin[L]) == Ent(L, OwnOrigin)
    ensures Private(st, st.origin[L])
  {
    CoherentParts(st);
    hide Coherent, Owner;
  }

  lemma FlushedDirtier(s: Sys, t: Sys, P: nat)
    requires FlushedOk(s) && ItemsOk(s) && CowsOk(s) && !s.suspended && !Owner(s.st, P).own.OwnFree?
    requires t == s.(ios := t.ios, dirty := s.dirty + {P})
    ensures FlushedOk(t)
  {
    hide OpOk;
    if Flushed(s) {
      forall i | 0 <= i < |s.batch.items|
        ensures match t.batch.items[i]
                case Redir(L) => L in t.cows && t.cows[L].newP !in t.dirty
                case Cmd(op) => op.Create? ==> t.dirty == {}
      {
        assert Items(s)[i] == s.batch.items[i] && ItemOk(s, Items(s)[i]);
        if s.batch.items[i].Redir? {
          NewRowFree(s, s.batch.items[i].L);
        }
      }
    }
  }

  lemma NewRowFree(s: Sys, L: nat)
    requires CowsOk(s) && L in s.cows && !s.cows[L].at.Waiting?
    ensures Owner(s.st, s.cows[L].newP).own.OwnFree? && s.cows[L].newP < s.st.R && s.cows[L].newP in s.st.used
    ensures OpOk(s.st, Redirect(L, s.cows[L].oldP, s.cows[L].newP))
  {
    assert CowOk(s, s.cows[L]);
    hide Owner;
  }

  lemma LostRowFree(s: Sys, i: nat)
    requires LostOk(s) && i < |s.lost| && s.lost[i].Redirect?
    ensures Owner(s.st, s.lost[i].newP).own.OwnFree?
  {
    assert OpOk(s.st, s.lost[i]);
    hide Owner;
  }

  lemma LostDirtier(s: Sys, t: Sys, P: nat)
    requires LostOk(s) && !Owner(s.st, P).own.OwnFree?
    requires t == s.(ios := t.ios, dirty := s.dirty + {P})
    ensures LostOk(t)
  {
    hide BatchOk, Owner, OpOk;
    forall i | 0 <= i < |s.lost| && s.lost[i].Redirect? ensures s.lost[i].newP != P {
      LostRowFree(s, i);
    }
  }

  lemma IoInFlight(s: Sys, t: Sys, io: Io)
    requires DirtyPrivate(s) && io.w.id !in s.ios && Private(s.st, io.P) && io.P < s.st.R
    requires t == s.(ios := s.ios[io.w.id := io], dirty := s.dirty + {io.P})
    ensures DirtyPrivate(t)
  {
    forall P | P in InFlight(t) ensures P in InFlight(s) + {io.P} {
      hide Private;
      if id :| id in t.ios && t.ios[id].P == P {
        assert id != io.w.id ==> id in s.ios && s.ios[id].P == P;
      }
    }
    hide InFlight, Private;
  }

  lemma IoStarts(s: Sys, t: Sys, io: Io)
    requires IosOk(s) && IoOk(s, io) && t == s.(ios := s.ios[io.w.id := io], dirty := s.dirty + {io.P})
    ensures IosOk(t)
  {
    forall id | id in t.ios ensures IoOk(t, t.ios[id]) {
      assert id in s.ios ==> IoOk(s, s.ios[id]);
    }
  }

  lemma PlaceKeeps(s: Sys, w: Write)
    requires Inv(s) && GoodWrite(s, w) && !s.suspended && w.id !in s.ios && !Shared(s.st, w.L)
    ensures Inv(s.(ios := s.ios[w.id := Io(w, s.st.origin[w.L])], dirty := s.dirty + {s.st.origin[w.L]}))
  {
    var P := s.st.origin[w.L];
    var t := s.(ios := s.ios[w.id := Io(w, P)], dirty := s.dirty + {P});
    assert IoOk(s, Io(w, P));
    hide *;
    InvParts(s);
    OwnRow(s.st, w.L);
    SameMapsTrivially(s, t);
    SameCowsTrivially(s, t);
    SameCommands(s, t);
    CowNewUsed(s);
    FrameCows(s, t);
    RowsUntouched(s, t);
    IoStarts(s, t, Io(w, P));
    FrameItems(s, t);
    FlushedDirtier(s, t, P);
    LostDirtier(s, t, P);
    FrameUsed(s, t);
    IoInFlight(s, t, Io(w, P));
    SameMode(s, t);
    InvFrom(t);
  }

  lemma WaiterOk(s: Sys, t: Sys, c: Cow, w: Write)
    requires CowOk(s, c) && t.st == s.st && t.rs == s.rs && t.rows == s.rows
    ensures CowOk(t, c.(waiters := c.waiters + [w]))
  {
    hide OpOk, Shared;
  }

  lemma WaitKeeps(s: Sys, L: nat, w: Write)
    requires Inv(s) && L in s.cows
    ensures Inv(s.(cows := s.cows[L := s.cows[L].(waiters := s.cows[L].waiters + [w])]))
  {
    var c := s.cows[L].(waiters := s.cows[L].waiters + [w]);
    var t := s.(cows := s.cows[L := c]);
    assert OneCow(s, t, L, c) && RowAsBefore(s, L, c);
    hide *;
    InvParts(s);
    CowShared(s, L);
    CowAt(s, L);
    SuspendedIdle(s, L);
    WaiterOk(s, t, s.cows[L], w);
    OneCowParts(s, t, L, c);
    OneCowPhases(s, t, L, c);
    OneCowKept(s, t, L, c);
  }

  /** a COW started, or changed in nothing but its waiters */
  lemma OneCowKept(s: Sys, t: Sys, L: nat, c: Cow)
    requires Inv(s) && t == s.(cows := t.cows) && OneCow(s, t, L, c) && RowAsBefore(s, L, c)
    requires CowsOk(t) && DirtyPrivate(t) && SamePhases(s, t) && !s.suspended
    ensures Inv(t)
  {
    hide *;
    InvParts(s);
    OneCowRows(s, t, L, c);
    OneCowRest(s, t);
    OneCowCount(s, t, L, c);
    SameMapsTrivially(s, t);
    SameCommands(s, t);
    FrameItems(s, t);
    SameMode(s, t);
    InvFrom(t);
  }

  lemma CowAt(s: Sys, L: nat)
    requires CowsOk(s) && L in s.cows
    ensures CowOk(s, s.cows[L])
    ensures !s.cows[L].at.Waiting? ==>
      forall M :: M in s.cows && M != L && !s.cows[M].at.Waiting? ==> s.cows[M].newP != s.cows[L].newP
  {
    hide CowOk;
  }

  lemma WritingInFlight(s: Sys, L: nat)
    requires L in s.cows
    ensures s.cows[L].at.Writing? ==> s.cows[L].newP in InFlight(s)
  {
  }

  lemma ParkMode(s: Sys, w: Write)
    requires ModeOk(s) && (s.hold || |s.cows| >= s.slots)
    ensures var t := s.(overflow := s.overflow + [w]);
      ModeOk(t) && SameData(s, t)
  {
  }

  lemma ParkKeeps(s: Sys, w: Write)
    requires Inv(s) && (s.hold || |s.cows| >= s.slots)
    ensures Inv(s.(overflow := s.overflow + [w]))
  {
    hide *;
    var t := s.(overflow := s.overflow + [w]);
    InvParts(s);
    ParkMode(s, w);
    SameCommands(s, t);
    ModeKeeps(s, t);
  }

  lemma StartOk(s: Sys, w: Write)
    requires w.L !in s.cows && GoodWrite(s, w) && Shared(s.st, w.L)
    ensures var c := Cow(w, Waiting, 0, 0, []); var t := s.(cows := s.cows[w.L := c]);
      OneCow(s, t, w.L, c) && CowOk(t, c) && RowAsBefore(s, w.L, c)
  {
    hide OpOk, Shared;
  }

  lemma StartKeeps(s: Sys, w: Write)
    requires Inv(s) && w.L !in s.cows && GoodWrite(s, w) && Shared(s.st, w.L) && !s.suspended
    ensures Inv(s.(cows := s.cows[w.L := Cow(w, Waiting, 0, 0, [])]))
  {
    hide *;
    var c := Cow(w, Waiting, 0, 0, []);
    var t := s.(cows := s.cows[w.L := c]);
    StartOk(s, w);
    InvParts(s);
    OneCowParts(s, t, w.L, c);
    OneCowPhases(s, t, w.L, c);
    OneCowKept(s, t, w.L, c);
  }

  // ---- a COW gets its row ------------------------------------------------------------------------------------

  /** the redirect of a COW that gets a free row is right */
  lemma FreeRowOk(st: St, L: nat, p: nat)
    requires Coherent(st) && L < st.O && Shared(st, L) && p < st.R && p !in st.used
    ensures L < |st.origin| && OpOk(st, Redirect(L, st.origin[L], p)) && Private(st, p) && Owner(st, p).own.OwnFree?
  {
    CoherentParts(st);
    hide Coherent;
    assert Owner(st, p).own.OwnFree?;
    hide Owner;
  }

  ghost predicate Given(s: Sys, t: Sys, L: nat, p: nat) {
    && L in s.cows && s.cows[L].at.Waiting? && L < |s.st.origin| && p < s.st.R && p !in s.st.used
    && t == s.(cows := s.cows[L := s.cows[L].(at := Writing, oldP := s.st.origin[L], newP := p)],
               st := s.st.(used := s.st.used + {p}), dirty := s.dirty + {p})
  }

  function GivenCow(s: Sys, L: nat, p: nat): Cow
    requires L in s.cows && L < |s.st.origin|
  {
    s.cows[L].(at := Writing, oldP := s.st.origin[L], newP := p)
  }

  lemma GivenOk(s: Sys, t: Sys, L: nat, p: nat)
    requires Given(s, t, L, p) && CowOk(s, s.cows[L]) && s.cows[L].w.L == L && Coherent(s.st)
    ensures CowOk(t, GivenCow(s, L, p))
  {
    CoherentParts(s.st);
    FreeRowOk(s.st, L, p);
    SameMapsFacts(s, t);
    hide Coherent, OpOk, Shared, Owner, Private, BatchOk;
  }

  lemma GivenCows(s: Sys, t: Sys, L: nat, p: nat)
    requires Given(s, t, L, p) && CowsOk(s) && Coherent(s.st)
    ensures CowsOk(t) && SamePhases(s, t) && |t.cows| == |s.cows|
    ensures FreshRows(t, t.cows.Keys) == FreshRows(s, s.cows.Keys) + {p}
    ensures InFlight(t) <= InFlight(s) + {p}
  {
    var c := GivenCow(s, L, p);
    assert OneCow(s, t, L, c) && SameMaps(s, t) && c.at.Writing? && c.newP == p && s.cows[L].at.Waiting? && p !in s.st.used;
    assert c.w.L == s.cows[L].w.L;
    hide *;
    CowAt(s, L);
    CowShared(s, L);
    GivenOk(s, t, L, p);
    CowNewUsed(s);
    OneCowOk(s, t, L, c);
    OneCowInFlight(s, t, L, c);
    OneCowNewRow(s, t, L, c);
    OneCowCount(s, t, L, c);
    OneCowPhases(s, t, L, c);
  }

  lemma GivenUsed(s: Sys, t: Sys, L: nat, p: nat)
    requires Given(s, t, L, p) && UsedExact(s) && Coherent(s.st)
    requires FreshRows(t, t.cows.Keys) == FreshRows(s, s.cows.Keys) + {p}
    ensures UsedExact(t) && Coherent(t.st)
  {
    SameMapsFacts(s, t);
    assert LostRows(t) == LostRows(s);
    CoherentParts(s.st);
    hide Coherent, Owner, FreshRows, LostRows, OpOk, BatchOk;
    StaysCoherent(s, t);
  }

  lemma GivenDirty(s: Sys, t: Sys, L: nat, p: nat)
    requires Given(s, t, L, p) && DirtyPrivate(s) && Coherent(s.st) && L < s.st.O && Shared(s.st, L)
    requires InFlight(t) <= InFlight(s) + {p}
    ensures DirtyPrivate(t)
  {
    FreeRowOk(s.st, L, p);
    hide Coherent, Private, Shared, OpOk, BatchOk, DirtyPrivate, InFlight;
    DirtyGrows(s, t, {p});
  }

  lemma GivenFlushed(s: Sys, t: Sys, L: nat, p: nat)
    requires Given(s, t, L, p) && FlushedOk(s) && ItemsOk(s) && CowsOk(s) && ModeOk(s)
    ensures FlushedOk(t)
  {
    hide OpOk, CowsOk;
    CowNewUsed(s);
    if Flushed(s) {
      forall i | 0 <= i < |s.batch.items|
        ensures match t.batch.items[i]
                case Redir(L) => L in t.cows && t.cows[L].newP !in t.dirty
                case Cmd(op) => op.Create? ==> t.dirty == {}
      {
        assert Items(s)[i] == s.batch.items[i] && ItemOk(s, Items(s)[i]);
      }
    }
  }

  lemma GivenLost(s: Sys, t: Sys, L: nat, p: nat)
    requires Given(s, t, L, p) && LostOk(s)
    ensures LostOk(t)
  {
    SameMapsFacts(s, t);
    LostNewUsed(s);
    hide BatchOk;
  }

  lemma GivenRows(s: Sys, t: Sys, L: nat, p: nat)
    requires Given(s, t, L, p) && RowsWhole(s) && FrozenOk(s) && Coherent(t.st)
    ensures RowsWhole(t) && FrozenOk(t)
  {
    hide Coherent, FrozenOk, Private;
    FrozenKept(s, t);
  }

  lemma GivenMaps(s: Sys, t: Sys, L: nat, p: nat)
    requires Given(s, t, L, p)
    ensures SameMaps(s, t) && t.ios == s.ios && t.pending == s.pending && t.batch == s.batch
    ensures t.hold == s.hold && t.suspended == s.suspended && t.slots == s.slots && t.overflow == s.overflow
    ensures L in s.cows
  {
  }

  lemma GiveKeeps(s: Sys, t: Sys, L: nat, p: nat)
    requires Inv(s) && Given(s, t, L, p)
    ensures Inv(t)
  {
    hide *;
    InvParts(s);
    GivenMaps(s, t, L, p);
    CowShared(s, L);
    GivenCows(s, t, L, p);
    GivenUsed(s, t, L, p);
    GivenDirty(s, t, L, p);
    GivenFlushed(s, t, L, p);
    GivenLost(s, t, L, p);
    GivenRows(s, t, L, p);
    SameCommands(s, t);
    FrameIos(s, t);
    FrameItems(s, t);
    SuspendedIdle(s, L);
    SameMode(s, t);
    InvFrom(t);
  }

  lemma CowShared(s: Sys, L: nat)
    requires CowsOk(s) && L in s.cows
    ensures L < s.st.O && Shared(s.st, L) && s.cows[L].w.L == L && GoodWrite(s, s.cows[L].w)
  {
    assert CowOk(s, s.cows[L]);
  }

  lemma SuspendedIdle(s: Sys, L: nat)
    requires ModeOk(s) && L in s.cows
    ensures !s.suspended
  {
  }

  // ---- a COW's data is done --------------------------------------------------------------------------------------

  ghost predicate QueuedUp(s: Sys, t: Sys, L: nat, ok: bool) {
    && L in s.cows && s.cows[L].at.Writing?
    && t == s.(cows := s.cows[L := s.cows[L].(at := Queued(ok))], pending := s.pending + [Redir(L)])
  }

  lemma QueuedOk(s: Sys, t: Sys, L: nat, ok: bool)
    requires QueuedUp(s, t, L, ok) && CowOk(s, s.cows[L]) && (ok ==> CowOk(s, s.cows[L].(at := Queued(ok))))
    ensures CowOk(t, s.cows[L].(at := Queued(ok)))
  {
    hide OpOk, Shared;
  }

  lemma QueuedItems(s: Sys, t: Sys, L: nat, ok: bool)
    requires QueuedUp(s, t, L, ok) && ItemsOk(s)
    ensures ItemsOk(t)
  {
    hide OpOk;
    assert Items(t) == Items(s) + [Redir(L)];
    forall i | 0 <= i < |Items(s)| ensures ItemOk(s, Items(s)[i]) && Items(s)[i] != Redir(L) {
    }
    forall i | 0 <= i < |BatchItems(s.batch)| ensures BatchItems(s.batch)[i] == Items(s)[i] {
    }
    hide Items, BatchItems;
    forall i | 0 <= i < |Items(t)| ensures ItemOk(t, Items(t)[i]) {
      assert i < |Items(s)| ==> Items(t)[i] == Items(s)[i];
    }
    forall M | M in t.cows && t.cows[M].at.Queued? ensures exists i :: 0 <= i < |Items(t)| && Items(t)[i] == Redir(M) {
      if M == L {
        assert Items(t)[|Items(s)|] == Redir(L);
      } else {
        var i :| 0 <= i < |Items(s)| && Items(s)[i] == Redir(M);
        assert Items(t)[i] == Redir(M);
      }
    }
    forall i | 0 <= i < |BatchItems(t.batch)| ensures !Failed(t, BatchItems(t.batch)[i]) {
      assert !Failed(s, BatchItems(s.batch)[i]);
    }
  }

  lemma QueueKeeps(s: Sys, t: Sys, L: nat, ok: bool)
    requires Inv(s) && QueuedUp(s, t, L, ok)
    requires ok ==> CowOk(s, s.cows[L].(at := Queued(ok)))
    ensures Inv(t)
  {
    var c := s.cows[L].(at := Queued(ok));
    assert t == s.(cows := s.cows[L := c], pending := t.pending) && OneCow(s, t, L, c) && RowAsBefore(s, L, c);
    hide *;
    InvParts(s);
    SuspendedIdle(s, L);
    CowAt(s, L);
    CowShared(s, L);
    QueuedOk(s, t, L, ok);
    OneCowParts(s, t, L, c);
    OneCowRows(s, t, L, c);
    OneCowRest(s, t);
    OneCowCount(s, t, L, c);
    QueuedItems(s, t, L, ok);
    SameMode(s, t);
    InvFrom(t);
  }

  // ---- COWs that are over -----------------------------------------------------------------------------------------

  /** these COWs are gone; some of the rows reserved may be given back */
  ghost predicate Gone(s: Sys, t: Sys, gone: set<nat>) {
    && SameMaps(s, t) && t.cows == s.cows - gone && t.st.used <= s.st.used
    && t.rows == s.rows && t.ios == s.ios && t.dirty == s.dirty && t.frozen == s.frozen
    && t.hold == s.hold && t.suspended == s.suspended
  }

  lemma GoneSets(s: Sys, t: Sys, gone: set<nat>)
    requires Gone(s, t, gone) && gone <= s.cows.Keys
    ensures InFlight(t) <= InFlight(s) && FreshRows(t, t.cows.Keys) == FreshRows(s, s.cows.Keys - gone)
    ensures forall L :: L in s.cows ==> RowsFor(s, t, s.cows[L])
  {
    assert t.cows == s.cows - gone && t.ios == s.ios && t.rows == s.rows;
    hide Gone;
    assert t.cows.Keys == s.cows.Keys - gone;
    assert InFlight(t) <= InFlight(s) by { hide FreshRows; }
    hide InFlight;
  }

  /** the rows of two sets of COWs have nothing in common */
  lemma FreshApart(s: Sys, gone: set<nat>)
    requires CowsOk(s)
    ensures FreshRows(s, s.cows.Keys - gone) !! FreshRows(s, gone)
    ensures FreshRows(s, s.cows.Keys) == FreshRows(s, s.cows.Keys - gone) + FreshRows(s, gone)
  {
    hide CowOk;
  }

  lemma GoneCows(s: Sys, t: Sys, gone: set<nat>)
    requires Gone(s, t, gone) && gone <= s.cows.Keys && CowsOk(s) && DirtyPrivate(s) && IosOk(s)
    requires forall P :: P in s.st.used && P !in t.st.used ==> P in FreshRows(s, gone)
    ensures CowsOk(t) && DirtyPrivate(t) && IosOk(t)
  {
    assert SameMaps(s, t) && t.cows == s.cows - gone && t.dirty == s.dirty && t.ios == s.ios;
    GoneSets(s, t, gone);
    hide *;
    CowNewUsed(s);
    FreshApart(s, gone);
    forall L | L in t.cows && !s.cows[L].at.Waiting? ensures s.cows[L].newP in t.st.used {
      FreshHas(s, s.cows.Keys - gone, L);
    }
    FrameCows(s, t);
    FrameIos(s, t);
    DirtyGrows(s, t, {});
  }

  lemma FreshHas(s: Sys, Ls: set<nat>, L: nat)
    requires L in Ls && L in s.cows && !s.cows[L].at.Waiting?
    ensures s.cows[L].newP in FreshRows(s, Ls)
  {
  }

  lemma GoneRows(s: Sys, t: Sys, gone: set<nat>)
    requires Gone(s, t, gone) && RowsWhole(s) && FrozenOk(s) && UsedExact(t)
    ensures RowsWhole(t) && FrozenOk(t)
  {
    assert forall P :: P in t.st.used ==> P < t.st.R by {
      assert t.st.used <= s.st.used;
      CoherentParts(s.st);
    }
    hide Coherent, FrozenOk, UsedExact, Private;
    StaysCoherent(s, t);
    FrozenKept(s, t);
  }

  /** rows given back are free again */
  lemma GoneUsed(s: Sys, t: Sys, gone: set<nat>)
    requires Gone(s, t, gone) && gone <= s.cows.Keys && CowsOk(s) && UsedExact(s) && LostOk(s) && t.lost == s.lost
    requires t.st.used == s.st.used - FreshRows(s, gone)
    ensures UsedExact(t)
  {
    GoneSets(s, t, gone);
    FreshApart(s, gone);
    SameMapsFacts(s, t);
    assert LostRows(t) == LostRows(s);
    forall P | P in FreshRows(s, gone) ensures Owner(s.st, P).own.OwnFree? && P !in LostRows(s) {
      var L :| L in gone && L in s.cows && !s.cows[L].at.Waiting? && s.cows[L].newP == P;
      hide CowsOk, LostOk, Owner, LostRows;
      NewRowFree(s, L);
      LostApart(s, L);
    }
    hide CowsOk, LostOk, Owner, LostRows, FreshRows, OpOk, BatchOk, Shared, Private;
  }

  lemma LostApart(s: Sys, L: nat)
    requires LostOk(s) && L in s.cows && !s.cows[L].at.Waiting?
    ensures s.cows[L].newP !in LostRows(s)
  {
    hide BatchOk;
  }

  lemma GoneMode(s: Sys, t: Sys, gone: set<nat>)
    requires Gone(s, t, gone) && ModeOk(s) && gone <= s.cows.Keys
    requires t.overflow == if s.hold || gone == {} then s.overflow else []
    ensures ModeOk(t)
  {
    assert gone == {} ==> t.cows == s.cows;
    assert s.suspended ==> t.cows == map[];
  }

  // ---- gathering a batch ---------------------------------------------------------------------------------------------

  predicate Distinct(items: seq<Item>) {
    forall i, j :: 0 <= i < j < |items| ==> !SameKey(items[i], items[j])
  }

  lemma {:induction false} KeptFacts(s: Sys, items: seq<Item>)
    ensures forall x :: x in Kept(s, items) <==> x in items && !Failed(s, x)
    ensures Distinct(items) ==> Distinct(Kept(s, items))
  {
    if items != [] {
      var n := |items| - 1;
      KeptFacts(s, items[..n]);
      assert items == items[..n] + [items[n]];
      if Distinct(items) {
        assert Distinct(items[..n]);
        assert forall x :: x in items[..n] ==> !SameKey(x, items[n]);
      }
      hide Failed, SameKey;
    }
  }

  ghost predicate Gathers(s: Sys, t: Sys, gone: set<nat>) {
    && s.batch.Idle? && gone == Redirs(s.pending) - Redirs(Kept(s, s.pending))
    && Gone(s, t, gone) && t.pending == [] && t.batch == Gathered(Kept(s, s.pending), false)
    && t.lost == s.lost && t.broken == s.broken && t.st.used == s.st.used - FreshRows(s, gone)
    && t.overflow == if s.hold || gone == {} then s.overflow else []
  }

  /** what ItemsOk says of an item that is queued */
  lemma QueuedItem(s: Sys, x: Item)
    requires ItemsOk(s) && x in Items(s)
    ensures ItemOk(s, x)
  {
    hide ItemOk, Items;
    var i :| 0 <= i < |Items(s)| && Items(s)[i] == x;
  }

  lemma QueuedIn(s: Sys, L: nat)
    requires ItemsOk(s) && L in s.cows && s.cows[L].at.Queued?
    ensures Redir(L) in Items(s)
  {
    hide ItemOk, Items;
  }

  lemma RedirsAre(items: seq<Item>, L: nat)
    ensures L in Redirs(items) <==> Redir(L) in items
  {
    forall i | 0 <= i < |items| && items[i].Redir? && items[i].L == L ensures items[i] == Redir(L) {
    }
  }

  lemma IsFailed(s: Sys, L: nat)
    requires ItemOk(s, Redir(L))
    ensures L in s.cows && s.cows[L].at.Queued?
    ensures Failed(s, Redir(L)) <==> s.cows[L].at == Queued(false)
  {
  }

  /** the COWs that go are those whose data write failed */
  lemma GatheredGone(s: Sys, gone: set<nat>)
    requires s.batch.Idle? && gone == Redirs(s.pending) - Redirs(Kept(s, s.pending)) && ItemsOk(s)
    ensures gone <= s.cows.Keys
    ensures forall L :: L in gone <==> L in s.cows && s.cows[L].at == Queued(false)
  {
    assert Items(s) == s.pending;
    hide *;
    KeptFacts(s, s.pending);
    forall L: nat ensures L in gone <==> L in s.cows && s.cows[L].at == Queued(false) {
      RedirsAre(s.pending, L);
      RedirsAre(Kept(s, s.pending), L);
      if L in s.cows && s.cows[L].at.Queued? {
        QueuedIn(s, L);
      }
      if Redir(L) in s.pending {
        QueuedItem(s, Redir(L));
        IsFailed(s, L);
      }
    }
  }

  lemma RedirIn(items: seq<Item>, L: nat)
    requires Redir(L) in items
    ensures L in Redirs(items)
  {
  }

  lemma KeptItemOk(s: Sys, t: Sys, gone: set<nat>, x: Item)
    requires SameMaps(s, t) && t.cows == s.cows - gone && t.hold == s.hold && t.suspended == s.suspended
    requires forall L :: L in gone <==> L in s.cows && s.cows[L].at == Queued(false)
    requires ItemOk(s, x) && !Failed(s, x)
    ensures ItemOk(t, x) && !Failed(t, x)
  {
    SameMapsFacts(s, t);
    hide OpOk, BatchOk, Private, Owner, Shared;
  }

  lemma GatheredItems(s: Sys, t: Sys, gone: set<nat>)
    requires Gathers(s, t, gone) && ItemsOk(s)
    requires forall L :: L in gone <==> L in s.cows && s.cows[L].at == Queued(false)
    ensures ItemsOk(t)
  {
    assert Items(s) == s.pending && Items(t) == t.batch.items == BatchItems(t.batch) == Kept(s, s.pending);
    assert t.cows == s.cows - gone && SameMaps(s, t) && Distinct(s.pending);
    hide *;
    KeptFacts(s, s.pending);
    forall x | x in Items(t) ensures ItemOk(t, x) && !Failed(t, x) {
      QueuedItem(s, x);
      KeptItemOk(s, t, gone, x);
    }
    forall L | L in t.cows && t.cows[L].at.Queued? ensures Redir(L) in Items(t) {
      QueuedIn(s, L);
      QueuedItem(s, Redir(L));
      IsFailed(s, L);
    }
    ItemsFrom(t);
  }

  lemma ItemsFrom(t: Sys)
    requires forall x :: x in Items(t) ==> ItemOk(t, x)
    requires forall x :: x in BatchItems(t.batch) ==> !Failed(t, x)
    requires Distinct(Items(t))
    requires forall L :: L in t.cows && t.cows[L].at.Queued? ==> Redir(L) in Items(t)
    ensures ItemsOk(t)
  {
    hide ItemOk, Items, BatchItems, Failed;
    forall L | L in t.cows && t.cows[L].at.Queued? ensures exists i :: 0 <= i < |Items(t)| && Items(t)[i] == Redir(L) {
      assert Redir(L) in Items(t);
    }
  }

  lemma LostNotFresh(s: Sys, gone: set<nat>)
    requires LostOk(s) && gone <= s.cows.Keys
    ensures forall i :: 0 <= i < |s.lost| && s.lost[i].Redirect? ==> s.lost[i].newP !in FreshRows(s, gone)
  {
    hide BatchOk;
  }

  lemma GatheredRest(s: Sys, t: Sys, gone: set<nat>)
    requires Gathers(s, t, gone) && LostOk(s) && CowsOk(s) && gone <= s.cows.Keys
    ensures FlushedOk(t) && LostOk(t)
  {
    SameMapsFacts(s, t);
    assert t.cows == s.cows - gone;
    LostNotFresh(s, gone);
    hide BatchOk, OpOk, Gone, Owner, Private, Shared, FreshRows;
  }

  lemma GatherKeeps(s: Sys, t: Sys, gone: set<nat>)
    requires Inv(s) && Gathers(s, t, gone)
    ensures Inv(t)
  {
    hide *;
    InvParts(s);
    GathersParts(s, t, gone);
    GatheredGone(s, gone);
    GoneCows(s, t, gone);
    GoneUsed(s, t, gone);
    GoneRows(s, t, gone);
    GoneMode(s, t, gone);
    GatheredItems(s, t, gone);
    GatheredRest(s, t, gone);
    InvFrom(t);
  }

  lemma GathersParts(s: Sys, t: Sys, gone: set<nat>)
    requires Gathers(s, t, gone)
    ensures s.batch.Idle? && gone == Redirs(s.pending) - Redirs(Kept(s, s.pending))
    ensures Gone(s, t, gone) && t.lost == s.lost && t.st.used == s.st.used - FreshRows(s, gone)
    ensures t.overflow == if s.hold || gone == {} then s.overflow else []
  {
  }

  // ---- a commit that fails --------------------------------------------------------------------------------------------

  /** a queued batch is right: each op on its own, and they do not meet */
  lemma BatchItemsOk(s: Sys)
    requires ItemsOk(s) && CowsOk(s) && ModeOk(s)
    ensures BatchOk(s.st, Ops(s.cows, BatchItems(s.batch)))
  {
    var items := BatchItems(s.batch);
    var ops := Ops(s.cows, items);
    forall i | 0 <= i < |items| ensures items[i] == Items(s)[i] && ItemOk(s, items[i]) && OpOk(s.st, ops[i]) {
      assert items[i] == Items(s)[i];
      assert ItemOk(s, Items(s)[i]);
      if items[i].Redir? {
        NewRowFree(s, items[i].L);
      }
      hide OpOk, CowsOk;
    }
    forall i, j | 0 <= i < j < |items| ensures Independent(ops[i], ops[j]) {
      assert !SameKey(Items(s)[i], Items(s)[j]);
      assert ItemOk(s, items[i]) && ItemOk(s, items[j]);
      hide OpOk, Items;
      ItemsApart(s, items[i], items[j]);
    }
  }

  lemma ItemsApart(s: Sys, a: Item, b: Item)
    requires CowsOk(s) && ModeOk(s) && ItemOk(s, a) && ItemOk(s, b) && !SameKey(a, b)
    ensures Independent(ItemOp(s.cows, a), ItemOp(s.cows, b))
  {
    hide OpOk, CowOk;
  }

  ghost predicate Fails(s: Sys, t: Sys, gone: set<nat>) {
    && !s.batch.Idle? && gone == Redirs(s.batch.items) && Gone(s, t, gone)
    && t.broken && t.batch.Idle? && t.pending == s.pending
    && t.overflow == (if s.hold || gone == {} then s.overflow else [])
    && if s.batch.Gathered? then t.lost == s.lost && t.st.used == s.st.used - FreshRows(s, gone)
       else t.lost == Ops(s.cows, s.batch.items) && t.st.used == s.st.used
  }

  lemma BatchGone(s: Sys, gone: set<nat>)
    requires ItemsOk(s) && gone == Redirs(BatchItems(s.batch))
    ensures gone <= s.cows.Keys && forall L :: L in gone ==> s.cows[L].at == Queued(true)
    ensures forall i :: 0 <= i < |s.pending| && s.pending[i].Redir? ==> s.pending[i].L !in gone
  {
    var items := BatchItems(s.batch);
    hide OpOk;
    forall L | L in gone ensures L in s.cows && s.cows[L].at == Queued(true) {
      var i :| 0 <= i < |items| && items[i].Redir? && items[i].L == L;
      assert Items(s)[i] == items[i] && ItemOk(s, Items(s)[i]) && !Failed(s, items[i]);
    }
    forall k | 0 <= k < |s.pending| && s.pending[k].Redir? ensures s.pending[k].L !in gone {
      assert Items(s)[|items| + k] == s.pending[k];
      forall i | 0 <= i < |items| && items[i].Redir? ensures items[i].L != s.pending[k].L {
        assert Items(s)[i] == items[i];
        assert !SameKey(Items(s)[i], Items(s)[|items| + k]);
      }
    }
  }

  lemma RestDistinct(s: Sys)
    requires ItemsOk(s)
    ensures Distinct(s.pending)
  {
    var n := |BatchItems(s.batch)|;
    hide ItemOk, Failed, SameKey, BatchItems;
    forall i, j | 0 <= i < j < |s.pending| ensures !SameKey(s.pending[i], s.pending[j]) {
      assert Items(s)[n + i] == s.pending[i] && Items(s)[n + j] == s.pending[j];
    }
  }

  /** what is left in the queue, once the batch and its COWs are gone */
  lemma RestItems(s: Sys, t: Sys, gone: set<nat>)
    requires ItemsOk(s) && gone == Redirs(BatchItems(s.batch)) && t.cows == s.cows - gone
    requires t.batch.Idle? && t.pending == s.pending
    requires forall x :: x in s.pending && x.Redir? ==> x.L !in gone
    requires forall x :: x in s.pending && x.Cmd? && ItemOk(s, x) ==> ItemOk(t, x)
    ensures ItemsOk(t)
  {
    assert Items(t) == s.pending && BatchItems(t.batch) == [];
    assert forall x :: x in Items(s) <==> x in BatchItems(s.batch) || x in s.pending;
    hide *;
    RestDistinct(s);
    forall x | x in Items(t) ensures ItemOk(t, x) {
      QueuedItem(s, x);
      if x.Redir? {
        IsFailed(s, x.L);
        StillQueued(t, x.L);
      }
    }
    forall L | L in t.cows && t.cows[L].at.Queued? ensures Redir(L) in Items(t) {
      QueuedIn(s, L);
      RedirsAre(BatchItems(s.batch), L);
    }
    ItemsFrom(t);
  }

  lemma StillQueued(t: Sys, L: nat)
    requires L in t.cows && t.cows[L].at.Queued?
    ensures ItemOk(t, Redir(L))
  {
  }

  lemma SameCmd(s: Sys, t: Sys, x: Item)
    requires SameMaps(s, t) && x.Cmd? && ItemOk(s, x) && t.hold == s.hold && t.suspended == s.suspended
    ensures ItemOk(t, x)
  {
    SameMapsFacts(s, t);
    hide OpOk, BatchOk, Private, Owner, Shared;
  }

  lemma FailItems(s: Sys, t: Sys, gone: set<nat>)
    requires Fails(s, t, gone) && ItemsOk(s)
    ensures ItemsOk(t)
  {
    assert SameMaps(s, t) && t.hold == s.hold && t.suspended == s.suspended && t.batch.Idle? && t.pending == s.pending;
    assert gone == Redirs(BatchItems(s.batch)) && t.cows == s.cows - gone;
    hide *;
    BatchGone(s, gone);
    forall x | x in s.pending && x.Cmd? && ItemOk(s, x) ensures ItemOk(t, x) {
      SameCmd(s, t, x);
    }
    RestItems(s, t, gone);
  }

  lemma FailLost(s: Sys, t: Sys, gone: set<nat>)
    requires Fails(s, t, gone) && LostOk(s) && ItemsOk(s) && CowsOk(s) && ModeOk(s) && FlushedOk(s)
    ensures LostOk(t)
  {
    SameMapsFacts(s, t);
    BatchGone(s, gone);
    if s.batch.Gathered? {
      LostNotFresh(s, gone);
      hide BatchOk, OpOk, Gone, Owner, Private, Shared, CowsOk, FlushedOk, ItemsOk, FreshRows;
    } else {
      BatchItemsOk(s);
      hide BatchOk, OpOk, Owner, Private, Shared, ItemsOk, CowOk;
      forall i | 0 <= i < |t.lost| && t.lost[i].Redirect?
        ensures t.lost[i].newP in t.st.used && t.lost[i].newP !in t.dirty
        ensures forall L :: L in t.cows && !t.cows[L].at.Waiting? ==> t.cows[L].newP != t.lost[i].newP
      {
        FailLostAt(s, t, gone, i);
      }
    }
  }

  lemma FailLostAt(s: Sys, t: Sys, gone: set<nat>, i: nat)
    requires s.batch.Recording? && ItemsOk(s) && CowsOk(s) && FlushedOk(s)
    requires t.lost == Ops(s.cows, s.batch.items) && i < |t.lost| && t.lost[i].Redirect?
    requires gone == Redirs(s.batch.items) && t.cows == s.cows - gone && t.st.used == s.st.used && t.dirty == s.dirty
    ensures t.lost[i].newP in t.st.used && t.lost[i].newP !in t.dirty
    ensures forall L :: L in t.cows && !t.cows[L].at.Waiting? ==> t.cows[L].newP != t.lost[i].newP
  {
    var item := s.batch.items[i];
    assert Items(s)[i] == item && ItemOk(s, Items(s)[i]);
    assert item.Redir? && t.lost[i].newP == s.cows[item.L].newP;
    assert item.L in gone;
    hide OpOk, CowOk;
    NewRowFree(s, item.L);
  }

  lemma NamesOnly(s: Sys)
    requires LostOk(s) && s.batch.Recording?
    ensures LostRows(s) == {}
  {
    hide BatchOk;
  }

  /** a record in doubt names the rows its COWs had */
  lemma FailUsedLost(s: Sys, t: Sys, gone: set<nat>)
    requires Gone(s, t, gone) && gone == Redirs(BatchItems(s.batch)) && s.batch.Recording?
    requires t.lost == Ops(s.cows, BatchItems(s.batch)) && t.st.used == s.st.used && SameMaps(s, t)
    requires UsedExact(s) && LostOk(s) && ItemsOk(s) && CowsOk(s)
    ensures UsedExact(t)
  {
    hide *;
    NamesOnly(s);
    BatchGone(s, gone);
    GoneSets(s, t, gone);
    FreshApart(s, gone);
    LostIsFresh(s, t, gone);
    KeptUsed(s, t);
  }

  lemma FailUsed(s: Sys, t: Sys, gone: set<nat>)
    requires Fails(s, t, gone) && UsedExact(s) && LostOk(s) && ItemsOk(s) && CowsOk(s)
    ensures UsedExact(t)
  {
    assert Gone(s, t, gone) && SameMaps(s, t) && gone == Redirs(BatchItems(s.batch));
    if s.batch.Gathered? {
      assert t.lost == s.lost && t.st.used == s.st.used - FreshRows(s, gone);
      hide *;
      BatchGone(s, gone);
      GoneUsed(s, t, gone);
    } else {
      assert t.lost == Ops(s.cows, BatchItems(s.batch)) && t.st.used == s.st.used;
      hide *;
      FailUsedLost(s, t, gone);
    }
  }

  /** the same rows are accounted for, if not under the same head */
  lemma KeptUsed(s: Sys, t: Sys)
    requires UsedExact(s) && SameMaps(s, t) && t.st.used == s.st.used
    requires FreshRows(s, s.cows.Keys) + LostRows(s) == FreshRows(t, t.cows.Keys) + LostRows(t)
    ensures UsedExact(t)
  {
    SameMapsFacts(s, t);
    hide Owner, LostRows, FreshRows, OpOk, BatchOk, Shared, Private;
  }

  lemma LostIsFresh(s: Sys, t: Sys, gone: set<nat>)
    requires gone == Redirs(BatchItems(s.batch)) && gone <= s.cows.Keys
    requires forall L :: L in gone ==> s.cows[L].at == Queued(true)
    requires t.lost == Ops(s.cows, BatchItems(s.batch)) && ItemsOk(s)
    ensures LostRows(t) == FreshRows(s, gone)
  {
    var items := BatchItems(s.batch);
    hide OpOk;
    forall i | 0 <= i < |items| ensures Items(s)[i] == items[i] && ItemOk(s, items[i]) {
      assert ItemOk(s, Items(s)[i]);
    }
    forall P | P in LostRows(t) ensures P in FreshRows(s, gone) {
      var i :| 0 <= i < |t.lost| && t.lost[i].Redirect? && t.lost[i].newP == P;
      assert ItemOk(s, items[i]);
      RedirIn(items, items[i].L);
      FreshHas(s, gone, items[i].L);
    }
    forall P | P in FreshRows(s, gone) ensures P in LostRows(t) {
      var L :| L in gone && L in s.cows && !s.cows[L].at.Waiting? && s.cows[L].newP == P;
      var i :| 0 <= i < |items| && items[i].Redir? && items[i].L == L;
      assert t.lost[i] == Redirect(L, s.cows[L].oldP, P);
    }
  }

  lemma FailKeeps(s: Sys, t: Sys, gone: set<nat>)
    requires Inv(s) && Fails(s, t, gone)
    ensures Inv(t)
  {
    hide *;
    InvParts(s);
    FailsParts(s, t, gone);
    BatchGone(s, gone);
    GoneCows(s, t, gone);
    FailUsed(s, t, gone);
    GoneRows(s, t, gone);
    GoneMode(s, t, gone);
    FailItems(s, t, gone);
    FailLost(s, t, gone);
    NothingFlushed(t);
    InvFrom(t);
  }

  lemma FailsParts(s: Sys, t: Sys, gone: set<nat>)
    requires Fails(s, t, gone)
    ensures Gone(s, t, gone) && t.batch.Idle? && gone == Redirs(BatchItems(s.batch))
    ensures t.overflow == if s.hold || gone == {} then s.overflow else []
    ensures forall P :: P in s.st.used && P !in t.st.used ==> P in FreshRows(s, gone)
  {
    hide FreshRows, Ops;
  }

  lemma NothingFlushed(t: Sys)
    requires t.batch.Idle?
    ensures FlushedOk(t)
  {
  }
}
