/** The run-time side as it runs: COW slots taken and given back in place, parked writes, the
    discard scan, the merge of a partial write into a row buffer -- each method against the step
    of the COW machine it is (km/raid_km-snap.c:187-213, 286-313, 386-612). */
module SnapEngine {
  import opened SnapState
  import opened SnapDerive
  import opened SnapPrivate
  import opened SnapCow
  import SnapMaps

  // ---- COW slots -----------------------------------------------------------------------------

  datatype Slot = Empty | Busy(cow: Cow)

  /** the COWs in flight, by origin row */
  function Cows(slots: seq<Slot>): map<nat, Cow> {
    if slots == [] then map[]
    else
      var rest := Cows(slots[..|slots| - 1]);
      match slots[|slots| - 1]
      case Empty => rest
      case Busy(c) => rest[c.w.L := c]
  }

  /** at most one COW a row */
  predicate OneEach(slots: seq<Slot>) {
    forall i, j :: 0 <= i < j < |slots| && slots[i].Busy? && slots[j].Busy? ==> slots[i].cow.w.L != slots[j].cow.w.L
  }

  lemma {:induction false} CowsAre(slots: seq<Slot>, L: nat)
    requires OneEach(slots)
    ensures L in Cows(slots) <==> exists i :: 0 <= i < |slots| && slots[i].Busy? && slots[i].cow.w.L == L
    ensures forall i :: 0 <= i < |slots| && slots[i].Busy? && slots[i].cow.w.L == L ==>
      L in Cows(slots) && Cows(slots)[L] == slots[i].cow
  {
    if slots != [] {
      var n := |slots| - 1;
      CowsAre(slots[..n], L);
      if i :| 0 <= i < n && slots[..n][i].Busy? && slots[..n][i].cow.w.L == L {
        assert slots[i].Busy? && slots[i].cow.w.L == L;
      }
      forall i | 0 <= i < n ensures slots[..n][i] == slots[i] {
      }
    }
  }

  function CountBusy(slots: seq<Slot>): nat {
    if slots == [] then 0 else CountBusy(slots[..|slots| - 1]) + if slots[|slots| - 1].Busy? then 1 else 0
  }

  lemma {:induction false} CowsCount(slots: seq<Slot>)
    requires OneEach(slots)
    ensures |Cows(slots)| == CountBusy(slots) <= |slots|
  {
    if slots != [] {
      var n := |slots| - 1;
      CowsCount(slots[..n]);
      if slots[n].Busy? {
        var rest, L := Cows(slots[..n]), slots[n].cow.w.L;
        CowsAre(slots[..n], L);
        assert L !in rest;
        assert rest[L := slots[n].cow].Keys == rest.Keys + {L};
      }
    }
  }

  /** all slots are taken exactly when there is a COW for each */
  lemma {:induction false} AllTaken(slots: seq<Slot>)
    ensures CountBusy(slots) <= |slots|
    ensures CountBusy(slots) == |slots| <==> forall i :: 0 <= i < |slots| ==> slots[i].Busy?
  {
    if slots != [] {
      AllTaken(slots[..|slots| - 1]);
      forall i | 0 <= i < |slots| - 1 ensures slots[..|slots| - 1][i] == slots[i] {
      }
    }
  }

  lemma SlotTaken(slots: seq<Slot>, i: nat, c: Cow)
    requires OneEach(slots) && i < |slots| && slots[i].Empty? && c.w.L !in Cows(slots)
    ensures OneEach(slots[i := Busy(c)]) && Cows(slots[i := Busy(c)]) == Cows(slots)[c.w.L := c]
  {
    var t := slots[i := Busy(c)];
    CowsAre(slots, c.w.L);
    assert OneEach(t);
    forall L: nat ensures L in Cows(t) <==> L in Cows(slots)[c.w.L := c]
      ensures L in Cows(t) ==> Cows(t)[L] == Cows(slots)[c.w.L := c][L]
    {
      CowsAre(t, L);
      CowsAre(slots, L);
      if j :| 0 <= j < |t| && t[j].Busy? && t[j].cow.w.L == L {
        assert j != i ==> slots[j] == t[j];
      }
      if j :| 0 <= j < |slots| && slots[j].Busy? && slots[j].cow.w.L == L {
        assert t[j] == slots[j];
      }
      assert t[i] == Busy(c);
    }
  }

  lemma SlotKept(slots: seq<Slot>, i: nat, c: Cow)
    requires OneEach(slots) && i < |slots| && slots[i].Busy? && c.w.L == slots[i].cow.w.L
    ensures OneEach(slots[i := Busy(c)]) && Cows(slots[i := Busy(c)]) == Cows(slots)[c.w.L := c]
  {
    var t := slots[i := Busy(c)];
    assert OneEach(t);
    forall L: nat ensures L in Cows(t) <==> L in Cows(slots)[c.w.L := c]
      ensures L in Cows(t) ==> Cows(t)[L] == Cows(slots)[c.w.L := c][L]
    {
      CowsAre(t, L);
      CowsAre(slots, L);
      if j :| 0 <= j < |t| && t[j].Busy? && t[j].cow.w.L == L {
        assert slots[j].Busy? && slots[j].cow.w.L == L;
        assert j != i ==> slots[j] == t[j];
      }
      if j :| 0 <= j < |slots| && slots[j].Busy? && slots[j].cow.w.L == L {
        assert t[j].Busy? && t[j].cow.w.L == L;
      }
      assert t[i] == Busy(c);
    }
  }

  lemma SlotFreed(slots: seq<Slot>, i: nat)
    requires OneEach(slots) && i < |slots| && slots[i].Busy?
    ensures OneEach(slots[i := Empty]) && Cows(slots[i := Empty]) == Cows(slots) - {slots[i].cow.w.L}
  {
    var t := slots[i := Empty];
    assert OneEach(t);
    var gone := slots[i].cow.w.L;
    forall L: nat ensures L in Cows(t) <==> L in Cows(slots) - {gone}
      ensures L in Cows(t) ==> Cows(t)[L] == (Cows(slots) - {gone})[L]
    {
      CowsAre(t, L);
      CowsAre(slots, L);
      if j :| 0 <= j < |t| && t[j].Busy? && t[j].cow.w.L == L {
        assert j != i && slots[j] == t[j];
        assert L != gone;
      }
      if j :| 0 <= j < |slots| && slots[j].Busy? && slots[j].cow.w.L == L {
        assert j != i ==> t[j] == slots[j];
      }
    }
  }

  // ---- the engine ------------------------------------------------------------------------------------

  datatype Status = Done | IoError | NoSpace

  class Engine {
    const maps: SnapMaps.Maps
    const rs: nat
    const slots: array<Slot>
    var hold: bool
    var broken: bool
    var overflow: seq<Write>
    /** writes ended, and writes sent again */
    var ended: seq<(Write, Status)>
    var again: seq<Write>

    ghost predicate Valid()
      reads this, maps, slots
    {
      maps.Valid() && Coherent(maps.View()) && OneEach(slots[..]) && slots.Length > 0
    }

    /** the part of the COW machine's state the engine holds */
    ghost predicate IsIn(s: Sys)
      reads this, maps, slots
    {
      && maps.LeavesWhole() && s.st == maps.View() && s.cows == Cows(slots[..]) && s.slots == slots.Length && s.rs == rs
      && s.hold == hold && s.broken == broken && s.overflow == overflow
    }

    constructor (maps: SnapMaps.Maps, rs: nat, n: nat)
      requires maps.Valid() && Coherent(maps.View()) && n > 0
      ensures Valid() && fresh(slots) && this.maps == maps && this.rs == rs && slots.Length == n
      ensures Cows(slots[..]) == map[] && !hold && !broken && overflow == [] && ended == [] && again == []
    {
      this.maps, this.rs := maps, rs;
      slots := new Slot[n](_ => Empty);
      hold, broken, overflow, ended, again := false, false, [], [], [];
      new;
      NoCows(slots[..]);
    }

    /** rk_busy_find: the slot of the COW in flight for L, or the number of slots */
    method BusyFind(L: nat) returns (i: nat)
      requires OneEach(slots[..])
      ensures i <= slots.Length
      ensures i < slots.Length ==> slots[i].Busy? && slots[i].cow.w.L == L
      ensures i < slots.Length ==> L in Cows(slots[..]) && Cows(slots[..])[L] == slots[i].cow
      ensures i == slots.Length ==> L !in Cows(slots[..])
    {
      i := 0;
      while i < slots.Length
        invariant i <= slots.Length
        invariant forall k :: 0 <= k < i && slots[k].Busy? ==> slots[k].cow.w.L != L
      {
        if slots[i].Busy? && slots[i].cow.w.L == L {
          break;
        }
        i := i + 1;
      }
      CowsAre(slots[..], L);
    }

    /** find_first_zero_bit on cow_busy */
    method FreeSlot() returns (i: nat)
      requires OneEach(slots[..])
      ensures i <= slots.Length && (i < slots.Length ==> slots[i].Empty?)
      ensures i == slots.Length <==> |Cows(slots[..])| >= slots.Length
    {
      i := 0;
      while i < slots.Length && slots[i].Busy?
        invariant i <= slots.Length && forall k :: 0 <= k < i ==> slots[k].Busy?
      {
        i := i + 1;
      }
      CowsCount(slots[..]);
      AllTaken(slots[..]);
    }

    /** rk_sn_shared */
    method IsShared(L: nat) returns (shared: bool)
      requires maps.LeavesWhole()
      ensures shared == Shared(maps.View(), L)
    {
      shared := maps.snaps != [] && L !in maps.snaps[|maps.snaps| - 1].exc;
    }

    /** a write parked behind the COW of its row */
    method AddWaiter(i: nat, w: Write)
      requires OneEach(slots[..]) && i < slots.Length && slots[i].Busy?
      modifies slots
      ensures OneEach(slots[..])
      ensures var c := old(slots[i].cow);
        Cows(slots[..]) == old(Cows(slots[..]))[c.w.L := c.(waiters := c.waiters + [w])]
    {
      var c := slots[i].cow;
      SlotKept(slots[..], i, c.(waiters := c.waiters + [w]));
      ghost var was := slots[..];
      slots[i] := Busy(c.(waiters := c.waiters + [w]));
      assert slots[..] == was[i := Busy(c.(waiters := c.waiters + [w]))];
    }

    method TakeSlot(i: nat, c: Cow)
      requires OneEach(slots[..]) && i < slots.Length && slots[i].Empty? && c.w.L !in Cows(slots[..])
      modifies slots
      ensures OneEach(slots[..]) && Cows(slots[..]) == old(Cows(slots[..]))[c.w.L := c]
    {
      SlotTaken(slots[..], i, c);
      ghost var was := slots[..];
      slots[i] := Busy(c);
      assert slots[..] == was[i := Busy(c)];
    }

    /** rk_alloc_row, against the machine's free choice */
    method Allocate(ghost s: Sys) returns (p: nat)
      requires Valid() && IsIn(s)
      modifies maps
      ensures Valid() && Picks(s, p)
      ensures maps.View() == if p < s.st.R then s.st.(used := s.st.used + {p}) else s.st
    {
      var ok, row := maps.AllocRow();
      p := if ok then row else maps.R;
      assert maps.View() == s.st.(used := maps.used);
      if ok {
        CoherentParts(s.st);
        ReserveCoherent(s.st, s.st.used + {p});
        hide Coherent;
      } else {
        assert maps.View() == s.st;
      }
    }

    /** a COW of the row starts in a free slot; a whole-row one needs its row at once */
    method StartCow(w: Write, i: nat, ghost s: Sys) returns (v: Verdict, P: nat, ghost p: nat)
      requires Valid() && IsIn(s) && w.L < |s.st.origin| && w.L !in s.cows && i < slots.Length && slots[i].Empty?
      modifies this`ended, maps, slots
      ensures Valid() && Picks(s, p) && v == Started(s, w, p)
      ensures v.StartsWhole? ==> P == p && maps.View() == s.st.(used := s.st.used + {p})
      ensures !v.StartsWhole? ==> maps.View() == s.st
      ensures Cows(slots[..]) == match v
                                 case NoRow => s.cows
                                 case StartsWhole => s.cows[w.L := Cow(w, Writing, s.st.origin[w.L], p, [])]
                                 case _ => s.cows[w.L := Cow(w, Waiting, 0, 0, [])]
      ensures ended == old(ended) + if v.NoRow? then [(w, NoSpace)] else []
    {
      hide Coherent, Cows, OneEach;
      if w.off == 0 && |w.data| == rs {
        var row := Allocate(s);
        if row >= maps.R {
          ended := ended + [(w, NoSpace)];
          return NoRow, 0, row;
        }
        var oldP := maps.Origin(w.L);
        TakeSlot(i, Cow(w, Writing, oldP, row, []));
        return StartsWhole, row, row;
      }
      TakeSlot(i, Cow(w, Waiting, 0, 0, []));
      v, P := StartsPartial, 0;
      p := SomePick(s);
    }

    /** the engine is where the machine's state t is */
    ghost predicate At(t: Sys)
      reads this, maps, slots
    {
      maps.LeavesWhole() && maps.View() == t.st && Cows(slots[..]) == t.cows && overflow == t.overflow
    }

    /** ... for a shared row without a COW: refused, parked, or a COW of its own */
    method MapShared(w: Write, ghost s: Sys) returns (v: Verdict, P: nat, ghost p: nat)
      requires Valid() && IsIn(s) && w.L < |s.st.origin| && w.L !in s.cows && Shared(s.st, w.L)
      modifies this`overflow, this`ended, maps, slots
      ensures Valid() && Picks(s, p) && v == (if s.broken then Refused else if s.hold || |s.cows| >= s.slots then Parked
                                              else Started(s, w, p))
      ensures At(Landed(s, w, p, v)) && (v.StartsWhole? ==> P == p)
      ensures ended == old(ended) + (if v.Refused? then [(w, IoError)] else if v.NoRow? then [(w, NoSpace)] else [])
    {
      hide Coherent, Cows, OneEach, Shared, Picks;
      if broken {
        ended := ended + [(w, IoError)];
        p := SomePick(s);
        return Refused, 0, p;
      }
      var i := FreeSlot();
      if hold || i >= slots.Length {
        overflow := overflow + [w];
        p := SomePick(s);
        return Parked, 0, p;
      }
      v, P, p := StartCow(w, i, s);
    }

    /** raidkm_snap_map_bio for a write inside one row: where it goes, and what becomes of it */
    method MapBio(w: Write, ghost s: Sys) returns (v: Verdict, P: nat, ghost p: nat)
      requires Valid() && IsIn(s) && GoodWrite(s, w)
      modifies this`overflow, this`ended, maps, slots
      ensures Valid() && Picks(s, p) && v == Judge(s, w, p) && At(MapWrite(s, w, p))
      ensures GoesAs(s, w, p, v)
      ensures v.InPlace? ==> w.L < |s.st.origin| && P == s.st.origin[w.L]
      ensures v.StartsWhole? ==> P == p
      ensures ended == old(ended) + (if v.Refused? then [(w, IoError)] else if v.NoRow? then [(w, NoSpace)] else [])
    {
      hide Coherent, Cows, OneEach, Shared, Picks, MapWrite, Judge;
      forall q | Picks(s, q) ensures GoesAs(s, w, q, Judge(s, w, q)) {
        JudgeExactly(s, w, q);
      }
      hide GoesAs;
      p := SomePick(s);
      ResultIs(s, w, p);
      P := 0;
      if maps.snaps == [] {
        return InPlace, maps.Origin(w.L), p;
      }
      var i := BusyFind(w.L);
      if i < slots.Length {
        AddWaiter(i, w);
        return Waits, 0, p;
      }
      var shared := IsShared(w.L);
      if !shared {
        return InPlace, maps.Origin(w.L), p;
      }
      v, P, p := MapShared(w, s);
      ResultIs(s, w, p);
    }

    /** rk_snap_cow_finish: the slot and, where the COW is undone, its row come free; the write
        ends; what waited is sent again */
    method CowFinish(i: nat, st: Status, undo: bool)
      requires Valid() && i < slots.Length && slots[i].Busy?
      requires undo ==> Owner(maps.View(), slots[i].cow.newP).own.OwnFree?
      modifies this`overflow, this`ended, this`again, maps`used, slots
      ensures Valid() && var c := old(slots[i].cow);
        && Cows(slots[..]) == old(Cows(slots[..])) - {c.w.L}
        && maps.View() == old(maps.View()).(used := old(maps.used) - if undo then {c.newP} else {})
        && ended == old(ended) + [(c.w, st)]
        && again == old(again) + c.waiters + (if hold then [] else old(overflow))
        && overflow == if hold then old(overflow) else []
    {
      var c := slots[i].cow;
      ghost var was, st0 := slots[..], maps.View();
      SlotFreed(slots[..], i);
      if undo {
        maps.used := maps.used - {c.newP};
      }
      assert maps.View() == st0.(used := maps.used);
      UndoneCoherent(st0, if undo then {c.newP} else {});
      hide Coherent;
      again := again + c.waiters;
      if !hold {
        again := again + overflow;
        overflow := [];
      }
      slots[i] := Empty;
      assert slots[..] == was[i := Empty];
      ended := ended + [(c.w, st)];
      assert st0.used - {} == st0.used;
    }

    /** does row K go the way of a run: shared too, or at P */
    method GoesOn(K: nat, shared: bool, P: nat, ghost s: Sys) returns (same: bool)
      requires Valid() && IsIn(s) && K < |s.st.origin|
      ensures same <==> K !in s.cows && Shared(s.st, K) == shared && (!shared ==> s.st.origin[K] == P)
    {
      hide Coherent, Cows, OneEach, Shared;
      var i := BusyFind(K);
      var other := IsShared(K);
      same := i == slots.Length && other == shared;
      if same && !shared {
        var o := maps.Origin(K);
        same := o == P;
      }
    }

    /** the scan of rk_snap_discard: how many rows from L on go the way L goes */
    method DiscardRun(L: nat, cap: nat, ghost s: Sys) returns (n: nat, shared: bool, P: nat)
      requires Valid() && IsIn(s) && 0 < cap && L + cap <= |s.st.origin| && L !in s.cows
      ensures 1 <= n <= cap && shared == Shared(s.st, L) && (!shared ==> P == s.st.origin[L])
      ensures forall K :: L <= K < L + n ==>
        K !in s.cows && Shared(s.st, K) == shared && (!shared ==> s.st.origin[K] == P + (K - L))
      ensures n < cap ==>
        L + n in s.cows || Shared(s.st, L + n) != shared || (!shared && s.st.origin[L + n] != P + n)
    {
      hide Coherent, Cows, OneEach, Shared;
      shared := IsShared(L);
      P := if shared then 0 else maps.Origin(L);
      n := 1;
      hide Valid, IsIn;
      while n < cap
        invariant 1 <= n <= cap
        invariant forall K :: L <= K < L + n ==>
          K !in s.cows && Shared(s.st, K) == shared && (!shared ==> s.st.origin[K] == P + (K - L))
      {
        var same := GoesOn(L + n, shared, P + n, s);
        if !same {
          break;
        }
        n := n + 1;
      }
    }
  }

  /** map_bio's verdict once it comes to start a COW */
  function Started(s: Sys, w: Write, p: nat): Verdict {
    if !Whole(s, w) then StartsPartial else if p >= s.st.R then NoRow else StartsWhole
  }

  /** the writes that end at once */
  function Ends(w: Write, v: Verdict): seq<(Write, Status)> {
    if v.Refused? then [(w, IoError)] else if v.NoRow? then [(w, NoSpace)] else []
  }

  /** what the engine holds after a verdict */
  function Landed(s: Sys, w: Write, p: nat, v: Verdict): Sys
    requires w.L < |s.st.origin|
  {
    match v
    case Waits =>
      if w.L in s.cows then s.(cows := s.cows[w.L := s.cows[w.L].(waiters := s.cows[w.L].waiters + [w])]) else s
    case Parked => s.(overflow := s.overflow + [w])
    case StartsPartial => s.(cows := s.cows[w.L := Cow(w, Waiting, 0, 0, [])])
    case StartsWhole =>
      s.(cows := s.cows[w.L := Cow(w, Writing, s.st.origin[w.L], p, [])], st := s.st.(used := s.st.used + {p}))
    case _ => s
  }

  lemma ResultIs(s: Sys, w: Write, p: nat)
    requires GoodWrite(s, w)
    ensures w.L < |s.st.origin|
    ensures var t, r := MapWrite(s, w, p), Landed(s, w, p, Judge(s, w, p));
      t.st == r.st && t.cows == r.cows && t.overflow == r.overflow
    ensures Judge(s, w, p) == if s.st.snaps == [] then InPlace else if w.L in s.cows then Waits
                              else if !Shared(s.st, w.L) then InPlace else if s.broken then Refused
                              else if s.hold || |s.cows| >= s.slots then Parked else Started(s, w, p)
  {
    assert w.L < |s.st.origin|;
    JudgeIs(s, w, p);
    hide Judge, Started, Shared, GoodWrite;
    match Judge(s, w, p) {
      case InPlace =>
      case StartsWhole =>
      case StartsPartial =>
      case Waits =>
      case Parked =>
      case _ =>
    }
  }

  lemma JudgeIs(s: Sys, w: Write, p: nat)
    ensures Judge(s, w, p) == if s.st.snaps == [] then InPlace else if w.L in s.cows then Waits
                              else if !Shared(s.st, w.L) then InPlace else if s.broken then Refused
                              else if s.hold || |s.cows| >= s.slots then Parked else Started(s, w, p)
  {
    hide Shared;
  }

  lemma UndoneCoherent(st: St, rows: set<nat>)
    requires Coherent(st) && forall P :: P in rows ==> Owner(st, P).own.OwnFree?
    ensures Coherent(st.(used := st.used - rows))
  {
    CoherentParts(st);
    assert forall P :: Owner(st.(used := st.used - rows), P) == Owner(st, P);
    hide Owner;
    ReserveCoherent(st, st.used - rows);
    hide Coherent;
  }

  lemma {:induction false} NoCows(slots: seq<Slot>)
    requires forall i :: 0 <= i < |slots| ==> slots[i].Empty?
    ensures Cows(slots) == map[]
  {
    if slots != [] {
      NoCows(slots[..|slots| - 1]);
    }
  }
}
