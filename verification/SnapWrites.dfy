/** Every origin write of the COW machine, from its arrival to its end: it is in one place at a
    time, leaves it by ending or by being sent again, and is never left with nothing to move it
    (km/raid_km-snap.c:236-364, 495-612). */
module SnapWrites {
  import opened SnapState
  import opened SnapDerive
  import opened SnapStored
  import opened SnapPrivate
  import opened SnapCow
  import opened SnapIsolation
  import opened SnapFrozen
  import opened SnapHistory

  function One(b: bool): nat {
    if b then 1 else 0
  }

  // ---- where a write is ---------------------------------------------------------------------------

  /** the write with its COW: as the COW's own, or waiting for it */
  function WithCow(s: Sys, w: Write): nat {
    if w.L in s.cows then One(s.cows[w.L].w == w) + multiset(s.cows[w.L].waiters)[w] else 0
  }

  /** in how many places the write is: on its way to its row, with a COW, or parked */
  function Places(s: Sys, w: Write): nat {
    One(w.id in s.ios && s.ios[w.id].w == w) + WithCow(s, w) + multiset(s.overflow)[w]
  }

  /** the COWs a step ends */
  ghost function Finished(s: Sys, step: Step): set<nat>
    requires Can(s, step)
  {
    match step
    case Alloc(L, p) => if p >= s.st.R then {L} else {}
    case Gather => Redirs(s.pending) - Redirs(Kept(s, s.pending))
    case Commit => Redirs(s.batch.items)
    case Fail => Redirs(s.batch.items)
    case _ => {}
  }

  /** the step sends again what waited for those COWs and, short of a hold, what was parked */
  ghost function Resent(s: Sys, step: Step, w: Write): nat
    requires Can(s, step)
  {
    (if w.L in Finished(s, step) && w.L in s.cows then multiset(s.cows[w.L].waiters)[w] else 0)
    + if step.Unhold? || (Finished(s, step) != {} && !s.hold) then multiset(s.overflow)[w] else 0
  }

  /** the step ends the write: done in place, its COW over, refused, or nothing to discard */
  ghost function Ended(s: Sys, step: Step, w: Write): nat
    requires Can(s, step)
  {
    match step
    case Map(v, p) => One(v == w && (Judge(s, v, p).Refused? || Judge(s, v, p).NoRow?))
    case Trim(v) => One(v == w && v.L !in s.cows && Shared(s.st, v.L))
    case PlaceDone(id) => One(id == w.id && s.ios[id].w == w)
    case _ => One(w.L in Finished(s, step) && w.L in s.cows && s.cows[w.L].w == w)
  }

  function Arrives(step: Step, w: Write): nat {
    One((step.Map? || step.Trim?) && step.w == w)
  }

  /** the step accounts for the write */
  ghost predicate Conserves(s: Sys, step: Step, w: Write)
    requires Can(s, step)
  {
    Places(Do(s, step), w) + Resent(s, step, w) + Ended(s, step, w) == Places(s, w) + Arrives(step, w)
  }

  // ---- step by step ---------------------------------------------------------------------------------

  lemma Pushed(q: seq<Write>, v: Write, w: Write)
    ensures multiset(q + [v])[w] == multiset(q)[w] + One(v == w)
  {
  }

  lemma ToRow(s: Sys, t: Sys, v: Write, P: nat, w: Write)
    requires v.id !in s.ios && t.ios == s.ios[v.id := Io(v, P)] && t.cows == s.cows && t.overflow == s.overflow
    ensures Places(t, w) == Places(s, w) + One(v == w)
  {
    hide WithCow;
    assert WithCow(t, w) == WithCow(s, w) by { SameCow(s, t, w); }
  }

  lemma SameCow(s: Sys, t: Sys, w: Write)
    requires t.cows == s.cows
    ensures WithCow(t, w) == WithCow(s, w)
  {
  }

  lemma ToCow(s: Sys, t: Sys, v: Write, c: Cow, w: Write)
    requires v.L !in s.cows && t.cows == s.cows[v.L := c] && c.w == v && c.waiters == []
    requires t.ios == s.ios && t.overflow == s.overflow
    ensures Places(t, w) == Places(s, w) + One(v == w)
  {
    assert multiset(c.waiters)[w] == 0;
  }

  lemma ToWaiters(s: Sys, t: Sys, v: Write, w: Write)
    requires v.L in s.cows && t.cows == s.cows[v.L := s.cows[v.L].(waiters := s.cows[v.L].waiters + [v])]
    requires t.ios == s.ios && t.overflow == s.overflow
    ensures Places(t, w) == Places(s, w) + One(v == w)
  {
    Pushed(s.cows[v.L].waiters, v, w);
  }

  lemma ToParked(s: Sys, t: Sys, v: Write, w: Write)
    requires t.ios == s.ios && t.cows == s.cows && t.overflow == s.overflow + [v]
    ensures Places(t, w) == Places(s, w) + One(v == w)
  {
    Pushed(s.overflow, v, w);
    hide WithCow;
    SameCow(s, t, w);
  }

  /** where an arriving write is put */
  lemma MapPlaces(s: Sys, v: Write, p: nat, w: Write)
    requires GoodWrite(s, v) && v.id !in s.ios
    ensures Places(MapWrite(s, v, p), w) + One(v == w && (Judge(s, v, p).Refused? || Judge(s, v, p).NoRow?))
      == Places(s, w) + One(v == w)
  {
    JudgeWaits(s, v, p);
    var t := MapWrite(s, v, p);
    assert v.L < |s.st.origin|;
    hide Judge, GoodWrite, Places, Coherent;
    match Judge(s, v, p) {
      case InPlace => ToRow(s, t, v, s.st.origin[v.L], w);
      case StartsWhole => ToCow(s, t, v, t.cows[v.L], w);
      case StartsPartial => ToCow(s, t, v, t.cows[v.L], w);
      case Waits => ToWaiters(s, t, v, w);
      case Parked => ToParked(s, t, v, w);
      case _ =>
    }
  }

  lemma JudgeWaits(s: Sys, v: Write, p: nat)
    ensures Judge(s, v, p).Waits? ==> v.L in s.cows
    ensures Judge(s, v, p).StartsPartial? || Judge(s, v, p).StartsWhole? ==> v.L !in s.cows
  {
    hide Shared, Whole;
  }

  lemma TrimPlaces(s: Sys, v: Write, w: Write)
    requires GoodWrite(s, v) && v.id !in s.ios
    ensures Places(MapTrim(s, v), w) + One(v == w && v.L !in s.cows && Shared(s.st, v.L)) == Places(s, w) + One(v == w)
  {
    var t := MapTrim(s, v);
    assert v.L < |s.st.origin|;
    hide Shared, GoodWrite, Places;
    if v.L in s.cows {
      ToWaiters(s, t, v, w);
    } else if !Shared(s.st, v.L) {
      ToRow(s, t, v, s.st.origin[v.L], w);
    }
  }

  lemma ArrivalConserves(s: Sys, step: Step, w: Write)
    requires Can(s, step) && (step.Map? || step.Trim?)
    ensures Conserves(s, step, w)
  {
    hide GoodWrite, Picks, Judge, Shared, MapWrite, MapTrim, Places;
    match step {
      case Map(v, p) => MapPlaces(s, v, p, w);
      case Trim(v) => TrimPlaces(s, v, w);
    }
  }

  /** COWs end: their own writes with them, what waited and what was parked goes out again */
  lemma OverConserves(s: Sys, u: Sys, Ls: set<nat>, w: Write)
    requires u.ios == s.ios && u.cows == s.cows && u.overflow == s.overflow && u.hold == s.hold
    ensures Places(Over(u, Ls), w)
      + (if w.L in Ls && w.L in s.cows then multiset(s.cows[w.L].waiters)[w] else 0)
      + (if Ls != {} && !s.hold then multiset(s.overflow)[w] else 0)
      + One(w.L in Ls && w.L in s.cows && s.cows[w.L].w == w)
      == Places(s, w)
  {
  }

  lemma EndConserves(s: Sys, step: Step, w: Write)
    requires Can(s, step) && (step.Gather? || step.Commit? || step.Fail?)
    ensures Conserves(s, step, w)
  {
    hide Redirs, Kept, FreshRows, Freeze, OpsOk, Ops, Over, Places;
    match step {
      case Gather =>
        var kept := Kept(s, s.pending);
        var gone := Redirs(s.pending) - Redirs(kept);
        OverConserves(s, s.(batch := Gathered(kept, false), pending := [],
                            st := s.st.(used := s.st.used - FreshRows(s, gone))), gone, w);
      case Commit =>
        var st := ApplyAll(s.st, Ops(s.cows, s.batch.items));
        OverConserves(s, s.(st := st, batch := Idle, frozen := Freeze(s.st.snaps, s.frozen, st, s.rows)),
                      Redirs(s.batch.items), w);
      case Fail =>
        var gone := Redirs(s.batch.items);
        OverConserves(s, s.(broken := true, batch := Idle, st := s.st.(used := s.st.used - FreshRows(s, gone))),
                      gone, w);
        OverConserves(s, s.(broken := true, batch := Idle, lost := Ops(s.cows, s.batch.items)), gone, w);
    }
  }

  lemma AllocPlaces(s: Sys, L: nat, p: nat, w: Write)
    requires CanAlloc(s, L, p) && p < s.st.R
    ensures Places(DoAlloc(s, L, p), w) == Places(s, w)
  {
    hide Picks;
  }

  lemma AllocConserves(s: Sys, L: nat, p: nat, w: Write)
    requires Can(s, Alloc(L, p))
    ensures Conserves(s, Alloc(L, p), w)
  {
    assert CanAlloc(s, L, p);
    if p < s.st.R {
      AllocPlaces(s, L, p, w);
      hide CanAlloc, Places, DoAlloc;
    } else {
      OverConserves(s, s, {L}, w);
      hide CanAlloc, Places, Over;
    }
  }

  lemma DataPlaces(s: Sys, L: nat, ok: bool, w: Write)
    requires CanFinishData(s, L)
    ensures Places(FinishData(s, L, ok), w) == Places(s, w)
  {
    hide Overlay;
  }

  lemma DonePlaces(s: Sys, t: Sys, id: nat, w: Write)
    requires id in s.ios && t.ios == s.ios - {id} && t.cows == s.cows && t.overflow == s.overflow
    ensures Places(t, w) + One(id == w.id && s.ios[id].w == w) == Places(s, w)
  {
  }

  lemma UnparkPlaces(s: Sys, t: Sys, w: Write)
    requires t.ios == s.ios && t.cows == s.cows && t.overflow == []
    ensures Places(t, w) + multiset(s.overflow)[w] == Places(s, w)
  {
    assert multiset(t.overflow)[w] == 0;
    hide WithCow;
    SameCow(s, t, w);
  }

  lemma SamePlaces(s: Sys, t: Sys, w: Write)
    requires t.ios == s.ios && t.cows == s.cows && t.overflow == s.overflow
    ensures Places(t, w) == Places(s, w)
  {
  }

  lemma RestConserves(s: Sys, step: Step, w: Write)
    requires Can(s, step) && !step.PowerCut? && !step.Map? && !step.Trim? && !step.Alloc?
    requires !step.Gather? && !step.Commit? && !step.Fail?
    ensures Conserves(s, step, w)
  {
    hide CanFinishData, FinishData, CanIssue, InFlight, Overlay, Issued, Places, NeedsFlush;
    match step {
      case DataDone(L, ok) => DataPlaces(s, L, ok, w);
      case PlaceDone(id) => DonePlaces(s, Do(s, step), id, w);
      case Unhold => UnparkPlaces(s, Do(s, step), w);
      case Scribble(_, _) | Flush | Record | Hold | Suspend | Issue(_) | Resume => SamePlaces(s, Do(s, step), w);
    }
  }

  /** Every write is accounted for at every step: what arrives is in one more place, and what
      leaves a place has ended or is sent again. */
  lemma StepConserves(s: Sys, step: Step, w: Write)
    requires Can(s, step) && !step.PowerCut?
    ensures Conserves(s, step, w)
  {
    hide Can, Conserves;
    match step {
      case Map(_, _) => ArrivalConserves(s, step, w);
      case Trim(_) => ArrivalConserves(s, step, w);
      case Alloc(L, p) => AllocConserves(s, L, p, w);
      case Gather => EndConserves(s, step, w);
      case Commit => EndConserves(s, step, w);
      case Fail => EndConserves(s, step, w);
      case _ => RestConserves(s, step, w);
    }
  }

  // ---- over runs -----------------------------------------------------------------------------------

  ghost predicate NoCut(steps: seq<Step>) {
    forall i :: 0 <= i < |steps| ==> !steps[i].PowerCut?
  }

  /** how often the write came in, ended and was sent again */
  datatype Tally = Tally(came: nat, ended: nat, resent: nat)

  ghost function Count(s: Sys, steps: seq<Step>, w: Write): Tally
    requires CanRun(s, steps)
    decreases |steps|
  {
    if steps == [] then Tally(0, 0, 0)
    else
      var t := Count(Do(s, steps[0]), steps[1..], w);
      Tally(Arrives(steps[0], w) + t.came, Ended(s, steps[0], w) + t.ended, Resent(s, steps[0], w) + t.resent)
  }

  /** Over any run without a power cut: each arrival of a write has ended, was sent again, or is
      where the write is now. */
  lemma {:induction false} RunConserves(s: Sys, steps: seq<Step>, w: Write)
    requires CanRun(s, steps) && NoCut(steps)
    ensures Places(Run(s, steps), w) + Count(s, steps, w).ended + Count(s, steps, w).resent
      == Places(s, w) + Count(s, steps, w).came
    decreases |steps|
  {
    if steps != [] {
      StepConserves(s, steps[0], w);
      assert NoCut(steps[1..]);
      hide Can, Do, Places, Resent, Ended, Arrives;
      RunConserves(Do(s, steps[0]), steps[1..], w);
    }
  }

  /** the write comes in only when it is nowhere: a bio is one object */
  ghost predicate SentOnce(s: Sys, steps: seq<Step>, w: Write)
    requires CanRun(s, steps)
    decreases |steps|
  {
    steps == []
    || ((Arrives(steps[0], w) > 0 ==> Places(s, w) == 0) && SentOnce(Do(s, steps[0]), steps[1..], w))
  }

  /** Sent again only after it was, a write is in one place at most. */
  lemma {:induction false} OnePlace(s: Sys, steps: seq<Step>, w: Write)
    requires CanRun(s, steps) && NoCut(steps) && SentOnce(s, steps, w) && Places(s, w) <= 1
    ensures Places(Run(s, steps), w) <= 1
    decreases |steps|
  {
    if steps != [] {
      StepConserves(s, steps[0], w);
      assert NoCut(steps[1..]);
      hide Can, Do, Places, Resent, Ended;
      OnePlace(Do(s, steps[0]), steps[1..], w);
    }
  }

  // ---- and it moves on ----------------------------------------------------------------------------

  /** the next step of this COW can be taken, or the journal has its redirect */
  ghost predicate CowMoves(s: Sys, L: nat)
    requires L in s.cows
  {
    match s.cows[L].at
    case Waiting => exists p :: CanAlloc(s, L, p)
    case Writing => CanFinishData(s, L)
    case Queued(_) => Redir(L) in Items(s)
  }

  lemma WritingMoves(s: Sys, L: nat)
    requires CowsOk(s) && RowsWhole(s) && L in s.cows && s.cows[L].at.Writing?
    ensures CanFinishData(s, L)
  {
    CowAt(s, L);
    hide CowsOk, Coherent, Shared, Owner;
  }

  lemma WaitingMoves(s: Sys, L: nat)
    requires CowsOk(s) && RowsWhole(s) && L in s.cows && s.cows[L].at.Waiting?
    ensures exists p :: CanAlloc(s, L, p)
  {
    CowAt(s, L);
    var p := SomePick(s);
    hide CowsOk, Picks, Coherent, Shared;
    assert CanAlloc(s, L, p);
  }

  lemma EveryCowMoves(s: Sys, L: nat)
    requires Inv(s) && L in s.cows
    ensures CowMoves(s, L)
  {
    InvParts(s);
    hide Inv, CowsOk, RowsWhole, CanAlloc, CanFinishData, Items, ItemOk;
    match s.cows[L].at {
      case Waiting => WaitingMoves(s, L);
      case Writing => WritingMoves(s, L);
      case Queued(_) =>
    }
  }

  lemma IoFits(s: Sys, io: Io)
    requires IoOk(s, io) && RowsWhole(s)
    ensures io.P in s.rows && io.w.off + |io.w.data| <= |s.rows[io.P]|
  {
    CoherentParts(s.st);
    assert s.st.origin[io.w.L] == io.P && io.w.L < |s.st.origin|;
    hide Shared, Coherent;
  }

  lemma IoMoves(s: Sys, id: nat)
    requires IosOk(s) && RowsWhole(s) && id in s.ios
    ensures Can(s, PlaceDone(id))
  {
    assert IoOk(s, s.ios[id]);
    hide IosOk, IoOk, RowsWhole;
    IoFits(s, s.ios[id]);
  }

  lemma SomeCow(s: Sys) returns (L: nat)
    requires ModeOk(s) && s.overflow != [] && !s.hold
    ensures L in s.cows
  {
    assert s.cows.Keys != {};
    L :| L in s.cows.Keys;
  }

  /** Wherever a write is, it moves on: its in-place I/O can complete, its COW can go on, and
      parked it has a hold to end or a COW in flight that can go on. */
  lemma NoneStranded(s: Sys, w: Write)
    requires Inv(s) && Places(s, w) > 0
    ensures (w.id in s.ios && s.ios[w.id].w == w && Can(s, PlaceDone(w.id)))
      || (w.L in s.cows && CowMoves(s, w.L))
      || (w in s.overflow && (s.hold || exists L :: L in s.cows && CowMoves(s, L)))
  {
    InvParts(s);
    hide Inv, Can, CowMoves, RowsWhole, CowsOk, IosOk, ItemsOk, ModeOk;
    if w.L in s.cows {
      EveryCowMoves(s, w.L);
    } else if w in s.overflow {
      if !s.hold {
        var L := SomeCow(s);
        EveryCowMoves(s, L);
      }
    } else {
      IoMoves(s, w.id);
    }
  }
}
