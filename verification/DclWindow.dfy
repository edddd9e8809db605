/** The population window, km/raid_km-dcl.c and km/raid_km.c: granules finish in
    any order, are collected in a circular bitmap, and the exported mark moves
    over a solid prefix only. The sync thread is held back so that nothing
    finishes past the window. */
module DclWindow {
  import opened Arith
  import opened Counting

  /** sectors in a granule, one stripe address */
  const GRANULE: nat := 8

  // ---- what the window means ----

  /** base is the oldest granule not finished, past the finished ones after it */
  datatype View = View(base: nat, past: set<nat>)

  ghost predicate ViewOk(v: View, size: nat) {
    forall g :: g in v.past ==> v.base < g < v.base + size
  }

  /** the view of a set of finished granules */
  ghost predicate Shows(v: View, done: set<nat>) {
    && (forall g: nat :: g < v.base ==> g in done)
    && v.base !in done
    && (forall g: nat :: v.base < g ==> (g in v.past <==> g in done))
  }

  /** over the solid prefix */
  function Advance(v: View): View
    decreases |v.past|
  {
    if v.base in v.past then Advance(View(v.base + 1, v.past - {v.base})) else v
  }

  /** a finished granule is taken, or dropped when it is past the window */
  function Taken(v: View, size: nat, g: nat): View {
    if g < v.base || v.base + size <= g then v else Advance(View(v.base, v.past + {g}))
  }

  lemma {:induction false} AdvanceShows(v: View, done: set<nat>)
    requires forall g: nat :: g < v.base ==> g in done
    requires forall g: nat :: v.base <= g ==> (g in v.past <==> g in done)
    requires forall g :: g in v.past ==> v.base <= g
    ensures Shows(Advance(v), done)
    decreases |v.past|
  {
    if v.base in v.past {
      AdvanceShows(View(v.base + 1, v.past - {v.base}), done);
    }
  }

  /** Inside the window the base is again the least granule not finished, and
      the bitmap again the finished ones past it. */
  lemma TakenShows(v: View, size: nat, g: nat, done: set<nat>)
    requires Shows(v, done) && ViewOk(v, size) && g < v.base + size
    ensures Shows(Taken(v, size, g), done + {g})
  {
    if g >= v.base {
      AdvanceShows(View(v.base, v.past + {g}), done + {g});
    }
  }

  lemma {:induction false} AdvanceOk(v: View, limit: nat, size: nat)
    requires forall g :: g in v.past ==> v.base <= g < limit
    requires v.base <= limit <= v.base + size
    ensures v.base <= Advance(v).base <= limit
    ensures ViewOk(Advance(v), size)
    decreases |v.past|
  {
    if v.base in v.past {
      AdvanceOk(View(v.base + 1, v.past - {v.base}), limit, size);
    }
  }

  lemma TakenOk(v: View, size: nat, g: nat)
    requires ViewOk(v, size)
    ensures ViewOk(Taken(v, size, g), size) && v.base <= Taken(v, size, g).base
  {
    if v.base <= g < v.base + size {
      AdvanceOk(View(v.base, v.past + {g}), v.base + size, size);
    }
  }

  // ---- the circular bitmap ----

  /** slot g mod size holds granule g of the window, and all of the window is
      represented */
  ghost predicate Holds(bits: seq<bool>, v: View) {
    && 1 <= |bits|
    && (forall g: nat :: v.base <= g < v.base + |bits| ==> (bits[g % |bits|] <==> g in v.past))
    && (forall g :: g in v.past ==> v.base <= g < v.base + |bits|)
  }

  lemma Further(q: nat, r: nat, k: nat, n: nat)
    requires r < n && 0 < k < n
    ensures (q * n + r + k) % n != r
  {
    if r + k < n {
      DivModUnique(q, r + k, n);
    } else {
      MulSucc(q, n);
      DivModUnique(q + 1, r + k - n, n);
    }
  }

  lemma SlotApart(a: nat, b: nat, n: nat)
    requires 1 <= n && a < b < a + n
    ensures a % n != b % n
  {
    var q, r := a / n, a % n;
    assert a == q * n + r;
    Further(q, r, b - a, n);
  }

  lemma SlotOnce(g: nat, n: nat)
    requires 1 <= n
    ensures (g + n) % n == g % n && g % n < n
  {
    var q, r := g / n, g % n;
    assert g == q * n + r;
    MulSucc(q, n);
    DivModUnique(q + 1, r, n);
  }

  lemma SetBit(bits: seq<bool>, v: View, g: nat)
    requires Holds(bits, v) && v.base <= g < v.base + |bits|
    ensures g % |bits| < |bits|
    ensures Holds(bits[g % |bits| := true], View(v.base, v.past + {g}))
  {
    var n := |bits|;
    forall x: nat | v.base <= x < v.base + n
      ensures bits[g % n := true][x % n] <==> x in v.past + {g}
    {
      if x < g {
        SlotApart(x, g, n);
      } else if g < x {
        SlotApart(g, x, n);
      }
    }
  }

  lemma ClearBase(bits: seq<bool>, v: View)
    requires Holds(bits, v)
    ensures v.base % |bits| < |bits|
    ensures Holds(bits[v.base % |bits| := false], View(v.base + 1, v.past - {v.base}))
  {
    var n := |bits|;
    SlotOnce(v.base, n);
    forall x: nat | v.base + 1 <= x < v.base + 1 + n
      ensures bits[v.base % n := false][x % n] <==> x in v.past - {v.base}
    {
      if x < v.base + n {
        SlotApart(v.base, x, n);
      }
    }
  }

  lemma BaseBit(bits: seq<bool>, v: View)
    requires Holds(bits, v)
    ensures 1 <= |bits| && v.base % |bits| < |bits|
    ensures bits[v.base % |bits|] <==> v.base in v.past
  {
  }

  lemma HoldsOk(bits: seq<bool>, v: View)
    requires Holds(bits, v) && v.base !in v.past
    ensures ViewOk(v, |bits|)
  {
  }

  lemma AdvanceStep(v: View)
    ensures v.base in v.past ==> Advance(v) == Advance(View(v.base + 1, v.past - {v.base}))
    ensures v.base !in v.past ==> Advance(v) == v
  {
  }

  /** the window of one population pass */
  class Window {
    const bits: array<bool>
    var base: nat
    var mark: nat
    ghost var past: set<nat>

    ghost predicate Valid()
      reads this, bits
    {
      && Holds(bits[..], View(base, past))
      && ViewOk(View(base, past), bits.Length)
      && mark == base * GRANULE
    }

    /** size is a power of two in the source, for the mask arithmetic; nothing
        here needs that */
    constructor (size: nat, mark: nat)
      requires 1 <= size && mark % GRANULE == 0
      ensures Valid() && fresh(bits) && bits.Length == size && base == mark / GRANULE && past == {}
    {
      this.bits := new bool[size](i => false);
      this.base, this.mark, this.past := mark / GRANULE, mark, {};
    }

    /** raidkm_dcl_pop_done */
    method PopDone(sector: nat)
      requires Valid()
      modifies this`base, this`mark, this`past, bits
      ensures Valid()
      ensures View(base, past) == Taken(old(View(base, past)), bits.Length, sector / GRANULE)
    {
      var granule := sector / GRANULE;
      var size := bits.Length;
      if granule < base || base + size <= granule {
        return;
      }
      SetBit(bits[..], View(base, past), granule);
      bits[granule % size] := true;
      past := past + {granule};
      Sweep();
      mark := base * GRANULE;
    }

    /** the loop over the solid prefix */
    method Sweep()
      requires Holds(bits[..], View(base, past))
      modifies this`base, this`past, bits
      ensures View(base, past) == Advance(old(View(base, past)))
      ensures Holds(bits[..], View(base, past))
      ensures ViewOk(View(base, past), bits.Length)
    {
      hide *;
      ghost var goal := Advance(View(base, past));
      BaseBit(bits[..], View(base, past));
      while bits[base % bits.Length]
        invariant Holds(bits[..], View(base, past))
        invariant Advance(View(base, past)) == goal
        invariant bits.Length > 0 && base % bits.Length < bits.Length
        invariant bits[base % bits.Length] <==> base in past
        decreases |past|
      {
        AdvanceStep(View(base, past));
        ClearBase(bits[..], View(base, past));
        bits[base % bits.Length] := false;
        base, past := base + 1, past - {base};
        BaseBit(bits[..], View(base, past));
      }
      AdvanceStep(View(base, past));
      HoldsOk(bits[..], View(base, past));
    }

    /** raidkm_dcl_pop_room: may addresses first..last be issued or fed? It
        reads the exported mark, not the base. */
    function Room(first: nat, last: nat): (ok: bool)
      requires Valid()
      reads this, bits
      ensures ok == RoomFor(View(base, past), bits.Length, first / GRANULE, last / GRANULE)
    {
      var b := mark / GRANULE;
      last / GRANULE < b + bits.Length || first / GRANULE <= b
    }
  }

  /** the admission test, in granules */
  predicate RoomFor(v: View, size: nat, first: nat, last: nat) {
    last < v.base + size || first <= v.base
  }

  // ---- a population pass ----

  /** next is the sync thread's address, flying the granules issued and not
      finished, done every granule that has finished since the pass's first
      mark or lay below it */
  datatype Pass = Pass(view: View, next: nat, flying: set<nat>, done: set<nat>)

  datatype Act = Issue | Feed(count: nat) | Finish(g: nat)

  /** granules first, first+1, ... given to the window one after the other */
  function Fed(v: View, size: nat, first: nat, count: nat): View {
    if count == 0 then v else Taken(Fed(v, size, first, count - 1), size, first + count - 1)
  }

  ghost function Span(first: nat, count: nat): set<nat> {
    Range(first, first + count)
  }

  /** the admission test gates what is issued or fed, and only what flies
      finishes */
  predicate Can(p: Pass, size: nat, a: Act) {
    match a
    case Issue => RoomFor(p.view, size, p.next, p.next)
    case Feed(count) => 1 <= count && RoomFor(p.view, size, p.next, p.next + count - 1)
    case Finish(g) => g in p.flying
  }

  ghost function Do(p: Pass, size: nat, a: Act): Pass {
    match a
    case Issue => p.(next := p.next + 1, flying := p.flying + {p.next})
    case Feed(count) =>
      p.(next := p.next + count, view := Fed(p.view, size, p.next, count), done := p.done + Span(p.next, count))
    case Finish(g) =>
      p.(view := Taken(p.view, size, g), flying := p.flying - {g}, done := p.done + {g})
  }

  /** everything below the sync thread flies or is done, and what flies is in
      the window */
  ghost predicate Inv(p: Pass, size: nat) {
    && 1 <= size
    && ViewOk(p.view, size)
    && Shows(p.view, p.done)
    && p.view.base <= p.next
    && (forall g: nat :: g < p.next <==> g in p.flying || g in p.done)
    && (forall g :: g in p.flying ==> g !in p.done)
    && (forall g :: g in p.flying ==> g < p.view.base + size)
  }

  /** a granule not finished bounds the base, and is the base when all before
      it are finished */
  lemma BaseBound(v: View, done: set<nat>, x: nat)
    requires Shows(v, done) && x !in done
    ensures v.base <= x
    ensures (forall y: nat :: y < x ==> y in done) ==> v.base == x
  {
  }

  lemma SpanStep(first: nat, count: nat)
    requires 1 <= count
    ensures Span(first, count) == Span(first, count - 1) + {first + count - 1}
  {
  }

  lemma SpanIs(first: nat, count: nat)
    ensures forall g: nat :: g in Span(first, count) <==> first <= g < first + count
  {
  }

  lemma FedStep(v: View, size: nat, first: nat, count: nat)
    ensures count == 0 ==> Fed(v, size, first, count) == v
    ensures count > 0 ==> Fed(v, size, first, count) == Taken(Fed(v, size, first, count - 1), size, first + count - 1)
  {
  }

  lemma {:induction false} FedShows(v: View, done: set<nat>, size: nat, first: nat, count: nat)
    requires 1 <= size && ViewOk(v, size) && Shows(v, done) && v.base <= first
    requires forall g :: g in done ==> g < first
    requires first + count <= v.base + size || (forall g: nat :: g < first ==> g in done)
    ensures ViewOk(Fed(v, size, first, count), size)
    ensures Shows(Fed(v, size, first, count), done + Span(first, count))
    ensures v.base <= Fed(v, size, first, count).base <= first + count
    ensures (forall g: nat :: g < first ==> g in done) ==> Fed(v, size, first, count).base == first + count
  {
    hide *;
    FedStep(v, size, first, count);
    SpanIs(first, count);
    var all := done + Span(first, count);
    if count == 0 {
      assert all == done;
      BaseBound(v, done, first);
    } else {
      FedShows(v, done, size, first, count - 1);
      var w, g := Fed(v, size, first, count - 1), first + count - 1;
      SpanStep(first, count);
      assert all == (done + Span(first, count - 1)) + {g};
      TakenShows(w, size, g, done + Span(first, count - 1));
      TakenOk(w, size, g);
      BaseBound(Taken(w, size, g), all, first + count);
    }
  }

  /** Every admitted step keeps the pass: no finished granule lands past the
      window. */
  lemma StepKeeps(p: Pass, size: nat, a: Act)
    requires Inv(p, size) && Can(p, size, a)
    ensures Inv(Do(p, size, a), size)
    ensures a.Finish? ==> a.g < p.view.base + size
    ensures p.view.base <= Do(p, size, a).view.base
  {
    match a
    case Issue =>
    case Feed(count) => FeedKeeps(p, size, count);
    case Finish(g) => FinishKeeps(p, size, g);
  }

  lemma FeedKeeps(p: Pass, size: nat, count: nat)
    requires Inv(p, size) && Can(p, size, Feed(count))
    ensures Inv(Do(p, size, Feed(count)), size)
    ensures p.view.base <= Do(p, size, Feed(count)).view.base
  {
    hide Fed, Taken, Span, Shows, ViewOk;
    AllDone(p, size);
    FedShows(p.view, p.done, size, p.next, count);
    SpanIs(p.next, count);
  }

  /** with the base at the sync thread nothing flies */
  lemma AllDone(p: Pass, size: nat)
    requires Inv(p, size)
    ensures p.next <= p.view.base ==> forall g: nat :: g < p.next ==> g in p.done
    ensures forall g :: g in p.done ==> g < p.next
  {
  }

  lemma FinishKeeps(p: Pass, size: nat, g: nat)
    requires Inv(p, size) && Can(p, size, Finish(g))
    ensures Inv(Do(p, size, Finish(g)), size)
    ensures p.view.base <= Do(p, size, Finish(g)).view.base
  {
    hide Taken, Shows, ViewOk;
    TakenShows(p.view, size, g, p.done);
    TakenOk(p.view, size, g);
    BaseBound(Taken(p.view, size, g), p.done + {g}, p.next);
  }

  /** a pass from a resume mark */
  ghost function Start(base: nat): Pass {
    Pass(View(base, {}), base, {}, Span(0, base))
  }

  ghost function After(p: Pass, size: nat, acts: seq<Act>): Pass {
    if acts == [] then p else Do(After(p, size, acts[..|acts| - 1]), size, acts[|acts| - 1])
  }

  ghost predicate Allowed(p: Pass, size: nat, acts: seq<Act>) {
    acts == []
    || (Allowed(p, size, acts[..|acts| - 1])
        && Can(After(p, size, acts[..|acts| - 1]), size, acts[|acts| - 1]))
  }

  lemma {:induction false} PassKeeps(base: nat, size: nat, acts: seq<Act>)
    requires 1 <= size && Allowed(Start(base), size, acts)
    ensures Inv(After(Start(base), size, acts), size)
  {
    if acts != [] {
      PassKeeps(base, size, acts[..|acts| - 1]);
      StepKeeps(After(Start(base), size, acts[..|acts| - 1]), size, acts[|acts| - 1]);
    }
  }

  /** In every admitted run, under any order of completion, the base is the
      least granule not finished, and the bitmap shows the finished ones past
      it. Where it stands the sync thread can go on as soon as nothing flies. */
  lemma EveryPass(base: nat, size: nat, acts: seq<Act>)
    requires 1 <= size && Allowed(Start(base), size, acts)
    ensures var p := After(Start(base), size, acts);
            && Shows(p.view, p.done)
            && (forall g :: g in p.flying ==> g < p.view.base + size)
            && (p.flying == {} ==> p.view == View(p.next, {}) && Can(p, size, Issue))
  {
    PassKeeps(base, size, acts);
    var p := After(Start(base), size, acts);
    if p.flying == {} {
      assert p.view.base !in p.done;
      assert forall g :: g in p.view.past ==> g in p.done;
      assert p.view.past == {};
    }
  }

  // ---- without the admission test ----

  function TakenAll(v: View, size: nat, gs: seq<nat>): View {
    if gs == [] then v else Taken(TakenAll(v, size, gs[..|gs| - 1]), size, gs[|gs| - 1])
  }

  lemma {:induction false} AdvanceStops(v: View, x: nat)
    requires v.base <= x && x !in v.past
    ensures Advance(v).base <= x && x !in Advance(v).past
    decreases |v.past|
  {
    if v.base in v.past {
      AdvanceStops(View(v.base + 1, v.past - {v.base}), x);
    }
  }

  /** Whatever finishes, in the window or past it, the mark does not cover a
      granule that has not been taken: one that is dropped stops it there until
      it finishes again. */
  lemma {:induction false} NeverCovers(v: View, size: nat, gs: seq<nat>, x: nat)
    requires v.base <= x && x !in v.past
    requires forall i: nat :: i < |gs| && gs[i] == x ==> TakenAll(v, size, gs[..i]).base + size <= x
    ensures TakenAll(v, size, gs).base <= x && x !in TakenAll(v, size, gs).past
  {
    if gs != [] {
      var init, g := gs[..|gs| - 1], gs[|gs| - 1];
      forall i: nat | i < |init| && init[i] == x
        ensures TakenAll(v, size, init[..i]).base + size <= x
      {
        assert init[..i] == gs[..i];
        assert gs[i] == x;
      }
      NeverCovers(v, size, init, x);
      var w := TakenAll(v, size, init);
      assert gs[..|gs| - 1] == init;
      if w.base <= g < w.base + size {
        AdvanceStops(View(w.base, w.past + {g}), x);
      }
    }
  }
}
