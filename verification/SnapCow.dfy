/** Copy-on-write at run time: origin writes, COWs in flight, parked writes, the journal batch
    under way, creates and destroys behind a drained and suspended array, power cuts -- one
    atomic step for each section the driver runs under its lock or waits for
    (km/raid_km-snap.c:236-364, 495-612, 1260-1326; km/raid_km-snapmeta.c:663-770). */
module SnapCow {
  import opened SnapState
  import opened SnapDerive
  import opened SnapStored
  import opened SnapPrivate

  /** a row's contents, sector by sector */
  type Row = seq<int>

  /** a write to origin row L, already cut at the row */
  datatype Write = Write(id: nat, L: nat, off: nat, data: seq<int>)

  /** the row with the write's sectors in place of its own */
  function Overlay(row: Row, w: Write): Row
    requires w.off + |w.data| <= |row|
  {
    row[..w.off] + w.data + row[w.off + |w.data|..]
  }

  /** sector by sector: the write's own in its range, the old ones elsewhere */
  lemma OverlayAt(row: Row, w: Write)
    requires w.off + |w.data| <= |row|
    ensures |Overlay(row, w)| == |row|
    ensures forall x :: 0 <= x < |row| ==>
      Overlay(row, w)[x] == if w.off <= x < w.off + |w.data| then w.data[x - w.off] else row[x]
  {
  }

  /** a COW: waiting for a row (a partial one, on the worker), its data on the way to newP, or
      its redirect queued for the journal */
  datatype Phase = Waiting | Writing | Queued(ok: bool)

  datatype Cow = Cow(w: Write, at: Phase, oldP: nat, newP: nat, waiters: seq<Write>)

  /** something for the journal, in order */
  datatype Item = Redir(L: nat) | Cmd(op: Op)

  datatype Batch = Idle | Gathered(items: seq<Item>, flushed: bool) | Recording(items: seq<Item>)

  /** an origin write (or discard) on its way to the row it was mapped to */
  datatype Io = Io(w: Write, P: nat)

  datatype Sys = Sys(
    rs: nat,                       // sectors of a row
    slots: nat,                    // COW slots
    st: St,
    rows: map<nat, Row>,           // what the rows read as
    dirty: set<nat>,               // rows a power cut may leave as anything
    cows: map<nat, Cow>,           // in flight, by origin row
    ios: map<nat, Io>,             // in-place I/O in flight, by write
    overflow: seq<Write>,          // parked: no slot was free, or hold was set
    hold: bool,
    suspended: bool,
    broken: bool,
    pending: seq<Item>,
    batch: Batch,
    lost: seq<Op>,                 // given up with their record perhaps on a member
    frozen: map<nat, seq<Row>>)    // each snapshot's contents when it came into the chain

  datatype Step =
    | Map(w: Write, p: nat)        // an origin write comes in; p: the row the allocator finds
    | Alloc(L: nat, p: nat)        // the worker gives a partial COW its row
    | Scribble(P: nat, row: Row)   // in flight, a row may read as anything
    | PlaceDone(id: nat)
    | Trim(w: Write)               // an origin discard comes in
    | DataDone(L: nat, ok: bool)
    | Gather                       // the commit worker takes what is pending
    | Flush
    | Record
    | Commit
    | Fail
    | Hold
    | Suspend
    | Issue(op: Op)
    | Resume
    | Unhold
    | PowerCut(k: nat, rows: map<nat, Row>)

  // ---- helpers ---------------------------------------------------------------------------------

  function BatchItems(b: Batch): seq<Item> {
    if b.Idle? then [] else b.items
  }

  /** everything queued for the journal, in order */
  function Items(s: Sys): seq<Item> {
    BatchItems(s.batch) + s.pending
  }

  function ItemOp(cows: map<nat, Cow>, item: Item): Op {
    match item
    case Redir(L) => if L in cows then Redirect(L, cows[L].oldP, cows[L].newP) else Redirect(L, 0, 0)
    case Cmd(op) => op
  }

  function Ops(cows: map<nat, Cow>, items: seq<Item>): (ops: seq<Op>)
    ensures |ops| == |items| && forall i :: 0 <= i < |items| ==> ops[i] == ItemOp(cows, items[i])
  {
    seq(|items|, i requires 0 <= i < |items| => ItemOp(cows, items[i]))
  }

  predicate Failed(s: Sys, item: Item) {
    item.Redir? && item.L in s.cows && s.cows[item.L].at == Queued(false)
  }

  function Kept(s: Sys, items: seq<Item>): seq<Item> {
    if items == [] then []
    else Kept(s, items[..|items| - 1]) + if Failed(s, items[|items| - 1]) then [] else [items[|items| - 1]]
  }

  /** rows I/O is on its way to */
  ghost function InFlight(s: Sys): set<nat> {
    (set id | id in s.ios :: s.ios[id].P) + (set L | L in s.cows && s.cows[L].at.Writing? :: s.cows[L].newP)
  }

  /** these COWs are over: their slots are free, and unless hold is set what was parked is sent
      again (a resent write comes in anew) */
  function Over(s: Sys, Ls: set<nat>): Sys {
    s.(cows := s.cows - Ls, overflow := if s.hold || Ls == {} then s.overflow else [])
  }

  ghost function FreshRows(s: Sys, Ls: set<nat>): set<nat> {
    set L | L in Ls && L in s.cows && !s.cows[L].at.Waiting? :: s.cows[L].newP
  }

  /** the origin rows of a batch's COWs */
  function Redirs(items: seq<Item>): set<nat> {
    set i | 0 <= i < |items| && items[i].Redir? :: items[i].L
  }

  predicate NeedsFlush(items: seq<Item>) {
    exists i :: 0 <= i < |items| && (items[i].Redir? || items[i].op.Create?)
  }

  /** what the journal may hold beyond what was acknowledged */
  function InDoubt(s: Sys): seq<Op> {
    if s.batch.Recording? then Ops(s.cows, s.batch.items) else s.lost
  }

  ghost function Contents(st: St, rows: map<nat, Row>, k: nat): seq<Row>
    requires k <= |st.snaps|
  {
    seq(|st.origin|, L requires 0 <= L < |st.origin| =>
      if Walk(st, k, L) in rows then rows[Walk(st, k, L)] else [])
  }

  /** contents of the snapshots that were not in the chain before are those they have now */
  ghost function Freeze(before: seq<Snap>, frozen: map<nat, seq<Row>>, st: St, rows: map<nat, Row>): map<nat,
          seq<Row>> {
    map id | id in ChainIds(st.snaps) ::
      if id in ChainIds(before) && id in frozen then frozen[id] else Contents(st, rows, PositionOf(st.snaps, id))
  }

  function ChainIds(snaps: seq<Snap>): set<nat> {
    set i | 0 <= i < |snaps| :: snaps[i].id
  }

  function PositionOf(snaps: seq<Snap>, id: nat): (k: nat)
    ensures k <= |snaps| && (k < |snaps| ==> snaps[k].id == id)
    ensures id in ChainIds(snaps) ==> k < |snaps|
  {
    if snaps == [] || snaps[0].id == id then 0
    else
      assert id in ChainIds(snaps) ==> id in ChainIds(snaps[1..]) by {
        if id in ChainIds(snaps) {
          var i :| 0 <= i < |snaps| && snaps[i].id == id;
          assert snaps[1..][i - 1].id == id;
        }
      }
      1 + PositionOf(snaps[1..], id)
  }

  // ---- steps ----------------------------------------------------------------------------------------

  predicate GoodWrite(s: Sys, w: Write) {
    w.L < s.st.O && w.L < |s.st.origin| && w.data != [] && w.off + |w.data| <= s.rs
  }

  predicate Whole(s: Sys, w: Write) {
    w.off == 0 && |w.data| == s.rs
  }

  /** what the allocator does: some free row, R when there is none */
  predicate Picks(s: Sys, p: nat) {
    if p < s.st.R then p !in s.st.used else forall P: nat :: P < s.st.R ==> P in s.st.used
  }

  /** the allocator always has an answer: a free row, or that there is none */
  lemma SomePick(s: Sys) returns (p: nat)
    ensures Picks(s, p)
  {
    if P: nat :| P < s.st.R && P !in s.st.used {
      p := P;
    } else {
      p := s.st.R;
    }
  }

  /** what raidkm_snap_map_bio does with a write */
  datatype Verdict = InPlace | Parked | Waits | Refused | NoRow | StartsWhole | StartsPartial

  function Judge(s: Sys, w: Write, p: nat): Verdict {
    if s.st.snaps == [] then InPlace
    else if w.L in s.cows then Waits
    else if !Shared(s.st, w.L) then InPlace
    else if s.broken then Refused
    else if s.hold || |s.cows| >= s.slots then Parked
    else if !Whole(s, w) then StartsPartial
    else if p >= s.st.R then NoRow
    else StartsWhole
  }

  /** Where a write goes.  In place only where the newest snapshot has its own copy or there is none;
      behind the COW of its row where there is one; refused only on broken metadata; parked only
      while COWs are held or no slot is free; and else it starts a COW of its own, for which a whole
      write needs a row at once. */
  ghost predicate GoesAs(s: Sys, w: Write, p: nat, v: Verdict) {
    && (v.InPlace? <==> s.st.snaps == [] || (w.L !in s.cows && !Shared(s.st, w.L)))
    && (v.Waits? <==> s.st.snaps != [] && w.L in s.cows)
    && (v.Refused? <==> w.L !in s.cows && Shared(s.st, w.L) && s.broken)
    && (v.Parked? <==> w.L !in s.cows && Shared(s.st, w.L) && !s.broken && (s.hold || |s.cows| >= s.slots))
    && (v.StartsPartial? || v.StartsWhole? || v.NoRow? <==>
          w.L !in s.cows && Shared(s.st, w.L) && !s.broken && !s.hold && |s.cows| < s.slots)
    && (v.StartsPartial? ==> !(w.off == 0 && |w.data| == s.rs))
    && (v.StartsWhole? ==> w.off == 0 && |w.data| == s.rs && p < s.st.R && p !in s.st.used)
    && (v.NoRow? ==> w.off == 0 && |w.data| == s.rs && forall P: nat :: P < s.st.R ==> P in s.st.used)
  }

  lemma JudgeExactly(s: Sys, w: Write, p: nat)
    requires Picks(s, p)
    ensures GoesAs(s, w, p, Judge(s, w, p))
  {
  }

  function MapWrite(s: Sys, w: Write, p: nat): Sys
    requires GoodWrite(s, w)
  {
    match Judge(s, w, p)
    case InPlace =>
      s.(ios := s.ios[w.id := Io(w, s.st.origin[w.L])], dirty := s.dirty + {s.st.origin[w.L]})
    case Waits =>
      if w.L in s.cows then s.(cows := s.cows[w.L := s.cows[w.L].(waiters := s.cows[w.L].waiters + [w])]) else s
    case Refused => s
    case NoRow => s
    case Parked => s.(overflow := s.overflow + [w])
    case StartsPartial => s.(cows := s.cows[w.L := Cow(w, Waiting, 0, 0, [])])
    case StartsWhole =>
      s.(cows := s.cows[w.L := Cow(w, Writing, s.st.origin[w.L], p, [])], st := s.st.(used := s.st.used + {p}),
         dirty := s.dirty + {p})
  }

  /** a discard of an origin row: in place where the newest snapshot has its own, else dropped */
  function MapTrim(s: Sys, w: Write): Sys
    requires GoodWrite(s, w)
  {
    if w.L in s.cows then s.(cows := s.cows[w.L := s.cows[w.L].(waiters := s.cows[w.L].waiters + [w])])
    else if Shared(s.st, w.L) then s
    else s.(ios := s.ios[w.id := Io(w, s.st.origin[w.L])], dirty := s.dirty + {s.st.origin[w.L]})
  }

  /** A discard waits behind the COW of its row; it goes to the origin's row where the newest snapshot
      has its own copy or there is none; on a row a snapshot shares nothing is done. */
  lemma TrimExactly(s: Sys, w: Write)
    requires GoodWrite(s, w)
    ensures var t := MapTrim(s, w);
      && t == s.(cows := t.cows, ios := t.ios, dirty := t.dirty)
      && (w.L in s.cows ==>
            && t.ios == s.ios && t.dirty == s.dirty
            && t.cows == s.cows[w.L := s.cows[w.L].(waiters := s.cows[w.L].waiters + [w])])
      && (w.L !in s.cows ==> t.cows == s.cows)
      && (w.L !in s.cows && s.st.snaps != [] && w.L !in s.st.snaps[|s.st.snaps| - 1].exc ==> t == s)
      && (w.L !in s.cows && (s.st.snaps == [] || w.L in s.st.snaps[|s.st.snaps| - 1].exc) ==>
            && t.ios == s.ios[w.id := Io(w, s.st.origin[w.L])]
            && t.dirty == s.dirty + {s.st.origin[w.L]})
  {
    assert w.L < |s.st.origin|;
    assert Shared(s.st, w.L) <==> s.st.snaps != [] && w.L !in s.st.snaps[|s.st.snaps| - 1].exc;
    hide GoodWrite, Shared;
  }

  predicate CanAlloc(s: Sys, L: nat, p: nat) {
    L in s.cows && s.cows[L].at.Waiting? && L < |s.st.origin| && Picks(s, p)
  }

  function DoAlloc(s: Sys, L: nat, p: nat): Sys
    requires CanAlloc(s, L, p)
  {
    if p >= s.st.R then Over(s, {L})
    else
      s.(cows := s.cows[L := s.cows[L].(at := Writing, oldP := s.st.origin[L], newP := p)],
         st := s.st.(used := s.st.used + {p}), dirty := s.dirty + {p})
  }

  predicate CanFinishData(s: Sys, L: nat) {
    L in s.cows && s.cows[L].at.Writing? && s.cows[L].oldP in s.rows
    && s.cows[L].w.off + |s.cows[L].w.data| <= |s.rows[s.cows[L].oldP]|
  }

  /** the data is in newP: the old row with the write over it */
  function FinishData(s: Sys, L: nat, ok: bool): Sys
    requires CanFinishData(s, L)
  {
    var c := s.cows[L];
    s.(cows := s.cows[L := c.(at := Queued(ok))], pending := s.pending + [Redir(L)],
       rows := if ok then s.rows[c.newP := Overlay(s.rows[c.oldP], c.w)] else s.rows)
  }

  /** COWs whose data write failed get no record and give their row back */
  ghost function DoGather(s: Sys): Sys {
    var kept := Kept(s, s.pending);
    var gone := Redirs(s.pending) - Redirs(kept);
    Over(s.(batch := Gathered(kept, false), pending := [], st := s.st.(used := s.st.used - FreshRows(s, gone))), gone)
  }

  ghost predicate CanCommit(s: Sys) {
    s.batch.Recording? && !s.broken && OpsOk(s.st, Ops(s.cows, s.batch.items))
  }

  ghost function DoCommit(s: Sys): Sys
    requires CanCommit(s)
  {
    var st := ApplyAll(s.st, Ops(s.cows, s.batch.items));
    Over(s.(st := st, batch := Idle, frozen := Freeze(s.st.snaps, s.frozen, st, s.rows)), Redirs(s.batch.items))
  }

  /** the commit failed: before any record went out the rows come back, else they stay taken */
  ghost function DoFail(s: Sys): Sys
    requires !s.batch.Idle?
  {
    var gone := Redirs(s.batch.items);
    if s.batch.Gathered? then
      Over(s.(broken := true, batch := Idle, st := s.st.(used := s.st.used - FreshRows(s, gone))), gone)
    else Over(s.(broken := true, batch := Idle, lost := Ops(s.cows, s.batch.items)), gone)
  }

  predicate Issued(s: Sys) {
    exists i :: 0 <= i < |Items(s)| && Items(s)[i].Cmd?
  }

  /** create, destroy, rename and set run one at a time; the first two with the array drained */
  ghost predicate CanIssue(s: Sys, op: Op) {
    && !op.Redirect? && OpOk(s.st, op) && !Issued(s)
    && (op.Create? || op.Destroy? ==> s.hold && s.suspended)
    && !(s.hold && !op.Create? && !op.Destroy?)
  }

  ghost predicate CanCut(s: Sys, k: nat, rows: map<nat, Row>) {
    && k <= |InDoubt(s)| && OpsOk(s.st, InDoubt(s)[..k])
    && rows.Keys == s.rows.Keys
    && forall P :: P in rows ==> |rows[P]| == s.rs && (P !in s.dirty ==> rows[P] == s.rows[P])
  }

  /** after a power cut: the acknowledged ops and a prefix of those in doubt; rows that were
      flushed as they were, the others as anything */
  ghost function DoCut(s: Sys, k: nat, rows: map<nat, Row>): Sys
    requires CanCut(s, k, rows)
  {
    var st := ApplyAll(s.st, InDoubt(s)[..k]);
    var settled := if UsedCovers(st) then Settled(st) else st;
    Sys(s.rs, s.slots, settled, rows, {}, map[], map[], [], false, false, false, [], Idle, [],
        Freeze(s.st.snaps, s.frozen, settled, rows))
  }

  ghost predicate Can(s: Sys, step: Step) {
    match step
    case Map(w, p) => GoodWrite(s, w) && !s.suspended && Picks(s, p) && w.id !in s.ios
    case Alloc(L, p) => CanAlloc(s, L, p)
    case Scribble(P, row) => P in InFlight(s) && |row| == s.rs
    case PlaceDone(id) =>
      id in s.ios && s.ios[id].P in s.rows && s.ios[id].w.off + |s.ios[id].w.data| <= |s.rows[s.ios[id].P]|
    case Trim(w) => GoodWrite(s, w) && !s.suspended && w.id !in s.ios
    case DataDone(L, ok) => CanFinishData(s, L)
    case Gather => s.batch.Idle?
    case Flush => s.batch.Gathered?
    case Record => s.batch.Gathered? && !s.broken && (NeedsFlush(s.batch.items) ==> s.batch.flushed)
    case Commit => CanCommit(s)
    case Fail => !s.batch.Idle?
    case Hold => !s.hold && !Issued(s)
    case Suspend => s.hold && !s.suspended && s.cows == map[] && s.ios == map[]
    case Issue(op) => CanIssue(s, op)
    case Resume => s.suspended && !Issued(s)
    case Unhold => s.hold && !s.suspended
    case PowerCut(k, rows) => CanCut(s, k, rows)
  }

  ghost function Do(s: Sys, step: Step): Sys
    requires Can(s, step)
  {
    match step
    case Map(w, p) => MapWrite(s, w, p)
    case Alloc(L, p) => DoAlloc(s, L, p)
    case Scribble(P, row) => s.(rows := s.rows[P := row])
    case PlaceDone(id) =>
      s.(ios := s.ios - {id}, rows := s.rows[s.ios[id].P := Overlay(s.rows[s.ios[id].P], s.ios[id].w)])
    case Trim(w) => MapTrim(s, w)
    case DataDone(L, ok) => FinishData(s, L, ok)
    case Gather => DoGather(s)
    case Flush => s.(dirty := InFlight(s), batch := s.batch.(flushed := true))
    case Record => s.(batch := Recording(s.batch.items))
    case Commit => DoCommit(s)
    case Fail => DoFail(s)
    case Hold => s.(hold := true)
    case Suspend => s.(suspended := true)
    case Issue(op) => s.(pending := s.pending + [Cmd(op)])
    case Resume => s.(suspended := false)
    case Unhold => s.(hold := false, overflow := [])
    case PowerCut(k, rows) => DoCut(s, k, rows)
  }
}
