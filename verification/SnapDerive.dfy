/** Rebuilding the in-core maps from the reverse map alone (rk_sn_derive,
    km/raid_km-snapmeta.c:1031-1109). */
module SnapDerive {
  import opened SnapState

  /** an error return is -EUCLEAN */
  datatype Result<+T> = Ok(value: T) | Unclean

  /** What the walk over the reverse map has built so far; moved = origin rows found away
      from home. */
  datatype Built = Built(origin: seq<nat>, snaps: seq<Snap>, used: set<nat>, moved: set<nat>)

  ghost predicate InRange(R: nat, rmap: map<nat, Ent>) {
    forall P :: P in rmap ==> P < R
  }

  /** rk_snap_slot takes a u8 */
  function SlotArg(slot: nat): nat {
    slot % 256
  }

  function TakeRow(O: nat, rmap: map<nat, Ent>, b: Built, P: nat): Result<Built>
    requires P in rmap
  {
    var e := rmap[P];
    match e.own
    case OwnFree => Ok(b.(used := b.used - {P}))
    case OwnOrigin =>
      if e.L >= O || e.L >= |b.origin| || e.L in b.moved || e.L !in rmap then Unclean
      else Ok(b.(origin := b.origin[e.L := P], moved := b.moved + {e.L}, used := b.used + {P}))
    case OwnSnap(slot) =>
      var i := IndexOf(b.snaps, SlotArg(slot));
      if i == |b.snaps| || e.L >= O then Unclean
      else
        var g := b.snaps[i];
        Ok(b.(snaps := b.snaps[i := g.(exc := g.exc[e.L := P], nexc := g.nexc + 1)], used := b.used + {P}))
  }

  /** ... the rows below n, in order */
  function TakeRows(O: nat, rmap: map<nat, Ent>, b: Built, n: nat): Result<Built> {
    if n == 0 then Ok(b)
    else
      match TakeRows(O, rmap, b, n - 1)
      case Unclean => Unclean
      case Ok(b') => if n - 1 in rmap then TakeRow(O, rmap, b', n - 1) else Ok(b')
  }

  ghost function Home(O: nat): (s: set<nat>)
    ensures forall P: nat :: P in s <==> P < O
  {
    if O == 0 then {} else Home(O - 1) + {O - 1}
  }

  function Identity(O: nat): (s: seq<nat>)
    ensures |s| == O && forall L :: 0 <= L < O ==> s[L] == L
  {
    seq(O, L => L)
  }

  /** a row that is not origin row P any more: origin row P must have moved */
  predicate AllMoved(O: nat, rmap: map<nat, Ent>, moved: set<nat>) {
    forall P :: P in rmap && P < O ==> P in moved
  }

  /** The state rk_sn_derive builds, from a chain without exceptions. */
  ghost function Derive(R: nat, O: nat, rmap: map<nat, Ent>, chain: seq<Snap>, nextId: nat): Result<St> {
    match TakeRows(O, rmap, Built(Identity(O), chain, Home(O), {}), R)
    case Unclean => Unclean
    case Ok(b) =>
      if AllMoved(O, rmap, b.moved) then Ok(St(R, O, b.origin, rmap, b.snaps, b.used, nextId)) else Unclean
  }

  // ---- derive undoes forgetting -----------------------------------------------------------

  /** What the snapshot table stores of a chain. */
  function Bare(g: Snap): Snap {
    g.(exc := map[], nexc := 0)
  }

  function BareChain(snaps: seq<Snap>): (s: seq<Snap>)
    ensures |s| == |snaps| && forall i :: 0 <= i < |s| ==> s[i] == Bare(snaps[i])
  {
    seq(|snaps|, i requires 0 <= i < |snaps| => Bare(snaps[i]))
  }

  /** exactly the rows somebody owns */
  ghost function OwnedRows(st: St): (s: set<nat>)
    requires UsedCovers(st)
    ensures forall P: nat :: P in s <==> P < st.R && !Owner(st, P).own.OwnFree?
  {
    set P | P in st.used && !Owner(st, P).own.OwnFree?
  }

  /** the state without what a COW reserves */
  ghost function Settled(st: St): St
    requires UsedCovers(st)
  {
    st.(used := OwnedRows(st))
  }

  /** origin row L is away from home, in a row below n */
  ghost predicate Seen(st: St, L: nat, n: nat)
    requires L < |st.origin|
  {
    st.origin[L] in st.rmap && st.origin[L] < n
  }

  ghost function ExcBelow(exc: map<nat, nat>, n: nat): map<nat, nat> {
    map L | L in exc && exc[L] < n :: exc[L]
  }

  ghost predicate BuiltOrigin(st: St, b: Built, n: nat)
    requires Shape(st)
  {
    && |b.origin| == st.O
    && (forall L :: 0 <= L < st.O ==> b.origin[L] == if Seen(st, L, n) then st.origin[L] else L)
    && (forall L: nat :: L in b.moved <==> L < st.O && Seen(st, L, n))
  }

  ghost predicate BuiltSnaps(st: St, b: Built, n: nat) {
    && |b.snaps| == |st.snaps|
    && forall i :: 0 <= i < |st.snaps| ==>
         b.snaps[i] == st.snaps[i].(exc := ExcBelow(st.snaps[i].exc, n), nexc := |ExcBelow(st.snaps[i].exc, n)|)
  }

  ghost predicate BuiltUsed(st: St, b: Built, n: nat) {
    forall P: nat :: P in b.used <==>
      if P in st.rmap && P < n then !Owner(st, P).own.OwnFree? else P < st.O
  }

  ghost predicate BuiltFrom(st: St, b: Built, n: nat)
    requires Shape(st)
  {
    BuiltOrigin(st, b, n) && BuiltSnaps(st, b, n) && BuiltUsed(st, b, n)
  }

  lemma SameBelow(exc: map<nat, nat>, P: nat)
    requires forall L :: L in exc ==> exc[L] != P
    ensures ExcBelow(exc, P + 1) == ExcBelow(exc, P)
  {
  }

  lemma OneMoreBelow(exc: map<nat, nat>, P: nat, L: nat)
    requires L in exc && exc[L] == P && forall L' :: L' in exc && exc[L'] == P ==> L' == L
    ensures ExcBelow(exc, P + 1) == ExcBelow(exc, P)[L := P] && L !in ExcBelow(exc, P)
  {
  }

  /** a row that is no snapshot's leaves every snapshot as it was */
  lemma SnapsUntouched(st: St, b: Built, P: nat)
    requires ExceptionsOwned(st) && BuiltSnaps(st, b, P) && !Owner(st, P).own.OwnSnap?
    ensures BuiltSnaps(st, b, P + 1)
  {
    forall i | 0 <= i < |st.snaps| ensures ExcBelow(st.snaps[i].exc, P + 1) == ExcBelow(st.snaps[i].exc, P) {
      forall L | L in st.snaps[i].exc ensures st.snaps[i].exc[L] != P {
        assert Owner(st, st.snaps[i].exc[L]).own.OwnSnap?;
      }
      SameBelow(st.snaps[i].exc, P);
    }
  }

  lemma OriginUntouched(st: St, b: Built, P: nat)
    requires Shape(st) && OriginCoherent(st) && BuiltOrigin(st, b, P)
    requires P !in st.rmap || !Owner(st, P).own.OwnOrigin?
    ensures BuiltOrigin(st, b, P + 1)
  {
    forall L | 0 <= L < st.O ensures Seen(st, L, P + 1) == Seen(st, L, P) {
      assert Owner(st, st.origin[L]).own.OwnOrigin?;
    }
  }

  /** a row the reverse map stores as the origin's is L's, and L is not at home */
  lemma OriginRowAway(st: St, P: nat)
    requires Shape(st) && OriginCoherent(st) && RmapNormal(st)
    requires P in st.rmap && st.rmap[P].own.OwnOrigin?
    ensures P < st.R && Owner(st, P) == st.rmap[P]
    ensures var L := st.rmap[P].L;
      L < st.O && st.origin[L] == P && L in st.rmap
      && forall K :: 0 <= K < st.O && st.origin[K] == P ==> K == L
  {
    var L := st.rmap[P].L;
    assert Owner(st, P) == st.rmap[P];
    // were L at home, P would be L, and its entry the default, which is not stored
    assert Owner(st, L) != Ent(L, OwnOrigin);
    forall K | 0 <= K < st.O && st.origin[K] == P ensures K == L {
      assert Owner(st, st.origin[K]) == Ent(K, OwnOrigin);
    }
  }

  lemma BuiltOriginStep(st: St, b: Built, b': Built, P: nat, L: nat)
    requires Shape(st) && BuiltOrigin(st, b, P) && P in st.rmap && L < st.O && st.origin[L] == P
    requires forall K :: 0 <= K < st.O && st.origin[K] == P ==> K == L
    requires |b.origin| == st.O && b'.origin == b.origin[L := P] && b'.moved == b.moved + {L}
    ensures L !in b.moved && BuiltOrigin(st, b', P + 1)
  {
    forall K | 0 <= K < st.O ensures Seen(st, K, P + 1) <==> Seen(st, K, P) || K == L {
    }
    hide Seen;
  }

  lemma TakeOriginRow(st: St, b: Built, P: nat)
    requires Shape(st) && OriginCoherent(st) && RmapNormal(st)
    requires BuiltOrigin(st, b, P) && BuiltUsed(st, b, P) && P in st.rmap && st.rmap[P].own.OwnOrigin?
    ensures TakeRow(st.O, st.rmap, b, P).Ok?
    ensures var b' := TakeRow(st.O, st.rmap, b, P).value;
      BuiltOrigin(st, b', P + 1) && BuiltUsed(st, b', P + 1) && b'.snaps == b.snaps
  {
    OriginRowAway(st, P);
    var L := st.rmap[P].L;
    assert |b.origin| == st.O;
    hide OriginCoherent, RmapNormal, BuiltOrigin, BuiltUsed;
    var b' := b.(origin := b.origin[L := P], moved := b.moved + {L}, used := b.used + {P});
    BuiltOriginStep(st, b, b', P, L);
    BuiltUsedStep(st, b, b', P);
    assert TakeRow(st.O, st.rmap, b, P) == Ok(b');
  }

  /** the snapshot that owns the row, and that no other exception is there */
  lemma SnapRowOwner(st: St, P: nat) returns (i: nat)
    requires Coherent(st) && P in st.rmap && st.rmap[P].own.OwnSnap?
    ensures i < |st.snaps| && st.rmap[P].own == OwnSnap(st.snaps[i].slot) && st.snaps[i].slot < SLOTS
    ensures P < st.R && st.rmap[P].L < st.O
    ensures st.rmap[P].L in st.snaps[i].exc && st.snaps[i].exc[st.rmap[P].L] == P
    ensures forall k, K :: 0 <= k < |st.snaps| && K in st.snaps[k].exc && st.snaps[k].exc[K] == P ==>
      k == i && K == st.rmap[P].L
    ensures IndexOf(st.snaps, st.snaps[i].slot) == i
  {
    assert P < st.R && Owner(st, P) == st.rmap[P];
    i :| Excepted(st, i, P);
    CoherentParts(st);
    hide Coherent, RmapNormal, Counted;
    forall k, K | 0 <= k < |st.snaps| && K in st.snaps[k].exc && st.snaps[k].exc[K] == P
      ensures k == i && K == st.rmap[P].L
    {
      assert Owner(st, st.snaps[k].exc[K]) == Ent(K, OwnSnap(st.snaps[k].slot));
    }
    IndexOfAt(st.snaps, st.nextId, i);
  }

  lemma SameSlots(a: seq<Snap>, b: seq<Snap>, slot: nat)
    requires |a| == |b| && forall i :: 0 <= i < |a| ==> a[i].slot == b[i].slot
    ensures IndexOf(a, slot) == IndexOf(b, slot)
  {
    var i, j := IndexOf(a, slot), IndexOf(b, slot);
  }

  lemma TakeSnapRowIs(st: St, b: Built, P: nat, i: nat)
    requires BuiltSnaps(st, b, P) && P in st.rmap && st.rmap[P].L < st.O && i < |st.snaps|
    requires st.rmap[P].own == OwnSnap(st.snaps[i].slot) && st.snaps[i].slot < SLOTS
    requires IndexOf(st.snaps, st.snaps[i].slot) == i
    ensures |b.snaps| == |st.snaps|
    ensures var g := b.snaps[i];
      TakeRow(st.O, st.rmap, b, P) ==
      Ok(b.(snaps := b.snaps[i := g.(exc := g.exc[st.rmap[P].L := P], nexc := g.nexc + 1)], used := b.used + {P}))
  {
    SameSlots(b.snaps, st.snaps, st.snaps[i].slot);
  }

  lemma BuiltSnapsStep(st: St, b: Built, b': Built, P: nat, i: nat, L: nat)
    requires BuiltSnaps(st, b, P) && i < |st.snaps| && L in st.snaps[i].exc && st.snaps[i].exc[L] == P
    requires forall k, K :: 0 <= k < |st.snaps| && K in st.snaps[k].exc && st.snaps[k].exc[K] == P ==> k == i && K == L
    requires |b.snaps| == |st.snaps|
    requires b'.snaps == b.snaps[i := b.snaps[i].(exc := b.snaps[i].exc[L := P], nexc := b.snaps[i].nexc + 1)]
    ensures BuiltSnaps(st, b', P + 1)
  {
    forall k | 0 <= k < |st.snaps| && k != i
      ensures ExcBelow(st.snaps[k].exc, P + 1) == ExcBelow(st.snaps[k].exc, P)
    {
      SameBelow(st.snaps[k].exc, P);
    }
    OneMoreBelow(st.snaps[i].exc, P, L);
  }

  lemma BuiltUsedStep(st: St, b: Built, b': Built, P: nat)
    requires BuiltUsed(st, b, P) && P in st.rmap && !st.rmap[P].own.OwnFree? && b'.used == b.used + {P}
    ensures BuiltUsed(st, b', P + 1)
  {
  }

  lemma TakeSnapRow(st: St, b: Built, P: nat)
    requires Coherent(st) && BuiltFrom(st, b, P)
    requires P in st.rmap && st.rmap[P].own.OwnSnap?
    ensures TakeRow(st.O, st.rmap, b, P).Ok?
    ensures BuiltFrom(st, TakeRow(st.O, st.rmap, b, P).value, P + 1)
  {
    assert Shape(st) && OriginCoherent(st);
    hide Coherent, BuiltOrigin, BuiltSnaps, BuiltUsed, TakeRow, OriginCoherent, Owner;
    var i := SnapRowOwner(st, P);
    TakeSnapRowIs(st, b, P, i);
    var b' := TakeRow(st.O, st.rmap, b, P).value;
    BuiltSnapsStep(st, b, b', P, i, st.rmap[P].L);
    BuiltUsedStep(st, b, b', P);
    OriginUntouched(st, b, P);
    BuiltOriginFrame(st, b, b', P + 1);
  }

  lemma TakeFreeRow(st: St, b: Built, P: nat)
    requires BuiltUsed(st, b, P) && RmapNormal(st)
    ensures P !in st.rmap ==> BuiltUsed(st, b, P + 1)
    ensures P in st.rmap && st.rmap[P].own.OwnFree? ==>
      TakeRow(st.O, st.rmap, b, P) == Ok(b.(used := b.used - {P})) && BuiltUsed(st, b.(used := b.used - {P}), P + 1)
  {
  }

  lemma TakeOneRow(st: St, b: Built, P: nat)
    requires Coherent(st) && P < st.R && BuiltFrom(st, b, P)
    ensures P in st.rmap ==> TakeRow(st.O, st.rmap, b, P).Ok?
    ensures BuiltFrom(st, if P in st.rmap then TakeRow(st.O, st.rmap, b, P).value else b, P + 1)
  {
    CoherentParts(st);
    hide Coherent, OriginCoherent, RmapNormal, ExceptionsOwned, BuiltOrigin, BuiltSnaps, BuiltUsed, TakeRow;
    hide ChainOrdered, Counted;
    if P in st.rmap && st.rmap[P].own.OwnOrigin? {
      TakeOriginRow(st, b, P);
      SnapsUntouched(st, b, P);
      BuiltSnapsFrame(st, b, TakeRow(st.O, st.rmap, b, P).value, P + 1);
    } else if P in st.rmap && st.rmap[P].own.OwnSnap? {
      TakeSnapRow(st, b, P);
    } else {
      var b' := b.(used := b.used - {P});
      TakeFreeRow(st, b, P);
      OriginUntouched(st, b, P);
      SnapsUntouchedFree(st, b, P);
      BuiltOriginFrame(st, b, b', P + 1);
      BuiltSnapsFrame(st, b, b', P + 1);
    }
  }

  lemma SnapsUntouchedFree(st: St, b: Built, P: nat)
    requires ExceptionsOwned(st) && BuiltSnaps(st, b, P)
    requires P !in st.rmap || st.rmap[P].own.OwnFree?
    ensures BuiltSnaps(st, b, P + 1)
  {
    SnapsUntouched(st, b, P);
  }

  lemma BuiltSnapsFrame(st: St, b: Built, b': Built, n: nat)
    requires BuiltSnaps(st, b, n) && b'.snaps == b.snaps
    ensures BuiltSnaps(st, b', n)
  {
  }

  lemma BuiltOriginFrame(st: St, b: Built, b': Built, n: nat)
    requires Shape(st) && BuiltOrigin(st, b, n) && b'.origin == b.origin && b'.moved == b.moved
    ensures BuiltOrigin(st, b', n)
  {
  }

  lemma {:induction false} TakeAllRows(st: St, b: Built, n: nat)
    requires Coherent(st) && n <= st.R && BuiltFrom(st, b, 0)
    ensures TakeRows(st.O, st.rmap, b, n).Ok?
    ensures BuiltFrom(st, TakeRows(st.O, st.rmap, b, n).value, n)
  {
    hide Coherent, BuiltFrom, TakeRow;
    if n > 0 {
      TakeAllRows(st, b, n - 1);
      TakeOneRow(st, TakeRows(st.O, st.rmap, b, n - 1).value, n - 1);
    }
  }

  lemma BuiltStart(st: St)
    requires Coherent(st)
    ensures BuiltFrom(st, Built(Identity(st.O), BareChain(st.snaps), Home(st.O), {}), 0)
  {
    hide OriginCoherent, RmapNormal, ExceptionsOwned, OwnersExcept, UsedCovers, ChainOrdered, Counted;
    forall i | 0 <= i < |st.snaps| ensures ExcBelow(st.snaps[i].exc, 0) == map[] {
    }
  }

  lemma BuiltAll(st: St, b: Built)
    requires Coherent(st) && BuiltFrom(st, b, st.R)
    ensures b.origin == st.origin && b.snaps == st.snaps && b.used == OwnedRows(st)
    ensures AllMoved(st.O, st.rmap, b.moved)
  {
    assert b.origin == st.origin by {
      forall L | 0 <= L < st.O ensures b.origin[L] == st.origin[L] {
        assert Owner(st, st.origin[L]) == Ent(L, OwnOrigin);
      }
    }
    assert b.snaps == st.snaps by {
      forall i | 0 <= i < |st.snaps| ensures b.snaps[i] == st.snaps[i] {
        assert ExcBelow(st.snaps[i].exc, st.R) == st.snaps[i].exc;
      }
    }
    assert b.used == OwnedRows(st) by {
      hide OriginCoherent, ExceptionsOwned, OwnersExcept, ChainOrdered, Counted, BuiltOrigin, BuiltSnaps;
    }
    forall P | P in st.rmap && P < st.O ensures P in b.moved {
      assert Owner(st, P) != Ent(P, OwnOrigin);
      assert Owner(st, st.origin[P]) == Ent(P, OwnOrigin);
    }
  }

  /** Forget everything but the reverse map and the bare chain: derive rebuilds exactly the
      origin map, the exceptions and the owned rows. */
  lemma DeriveRebuilds(st: St)
    requires Coherent(st)
    ensures UsedCovers(st)
    ensures Derive(st.R, st.O, st.rmap, BareChain(st.snaps), st.nextId) == Ok(Settled(st))
  {
    var b0 := Built(Identity(st.O), BareChain(st.snaps), Home(st.O), {});
    assert UsedCovers(st);
    hide Coherent, BuiltFrom;
    BuiltStart(st);
    TakeAllRows(st, b0, st.R);
    BuiltAll(st, TakeRows(st.O, st.rmap, b0, st.R).value);
  }

  lemma SettledCoherent(st: St)
    requires Coherent(st)
    ensures UsedCovers(st) && Coherent(Settled(st))
  {
    var s := Settled(st);
    assert forall P :: Owner(s, P) == Owner(st, P);
    assert OwnersExcept(s) by {
      forall P | 0 <= P < s.R && Owner(s, P).own.OwnSnap? ensures exists i: nat :: Excepted(s, i, P) {
        var i: nat :| Excepted(st, i, P);
        assert Excepted(s, i, P);
      }
    }
  }

  lemma ReserveExcepts(st: St, used: set<nat>)
    requires OwnersExcept(st)
    ensures OwnersExcept(st.(used := used))
  {
    var t := st.(used := used);
    assert forall P :: Owner(t, P) == Owner(st, P);
    hide Owner;
    forall P | 0 <= P < t.R && Owner(t, P).own.OwnSnap? ensures exists i: nat :: Excepted(t, i, P) {
      var i: nat :| Excepted(st, i, P);
      assert Excepted(t, i, P);
    }
  }

  /** what a COW reserves changes nothing but the used rows */
  lemma ReserveCoherent(st: St, used: set<nat>)
    requires Coherent(st) && UsedCovers(st.(used := used))
    ensures Coherent(st.(used := used)) && Settled(st.(used := used)) == Settled(st)
  {
    var t := st.(used := used);
    ReserveExcepts(st, used);
    assert forall P :: Owner(t, P) == Owner(st, P);
    assert OwnedRows(t) == OwnedRows(st);
    hide Owner, OwnersExcept, OwnedRows;
    assert OriginCoherent(t) && ExceptionsOwned(t);
  }

  // ---- whatever derive accepts ----------------------------------------------------------------

  /** the origin part built from the rows below n of any reverse map */
  ghost predicate OriginBuilt(O: nat, rmap: map<nat, Ent>, b: Built, n: nat) {
    && |b.origin| == O
    && (forall L :: 0 <= L < O && L !in b.moved ==> b.origin[L] == L)
    && (forall L :: L in b.moved ==>
          L < O && L in rmap && b.origin[L] in rmap && b.origin[L] < n && rmap[b.origin[L]] == Ent(L, OwnOrigin))
    && (forall P :: P in rmap && P < n && rmap[P].own.OwnOrigin? ==>
          rmap[P].L in b.moved && rmap[P].L < O && b.origin[rmap[P].L] == P)
  }

  lemma TakeRowOrigin(O: nat, rmap: map<nat, Ent>, b: Built, P: nat)
    requires OriginBuilt(O, rmap, b, P) && P in rmap && TakeRow(O, rmap, b, P).Ok?
    ensures OriginBuilt(O, rmap, TakeRow(O, rmap, b, P).value, P + 1)
  {
  }

  lemma {:induction false} TakeRowsOrigin(O: nat, rmap: map<nat, Ent>, b: Built, n: nat)
    requires OriginBuilt(O, rmap, b, 0) && TakeRows(O, rmap, b, n).Ok?
    ensures OriginBuilt(O, rmap, TakeRows(O, rmap, b, n).value, n)
  {
    hide TakeRow;
    if n > 0 {
      TakeRowsOrigin(O, rmap, b, n - 1);
      if n - 1 in rmap {
        hide OriginBuilt;
        TakeRowOrigin(O, rmap, TakeRows(O, rmap, b, n - 1).value, n - 1);
      }
    }
  }

  /** Any reverse map derive accepts -- not only one this code wrote -- gives a total,
      injective origin map: L and the rows the origin owns are in bijection. */
  lemma AcceptedOriginIsBijection(R: nat, O: nat, rmap: map<nat, Ent>, chain: seq<Snap>, nextId: nat)
    requires O <= R && InRange(R, rmap)
    requires Derive(R, O, rmap, chain, nextId).Ok?
    ensures var st := Derive(R, O, rmap, chain, nextId).value;
      && |st.origin| == O
      && (forall L :: 0 <= L < O ==> st.origin[L] < R && Owner(st, st.origin[L]) == Ent(L, OwnOrigin))
      && (forall P :: 0 <= P < R && Owner(st, P).own.OwnOrigin? ==>
            Owner(st, P).L < O && st.origin[Owner(st, P).L] == P)
  {
    var b0 := Built(Identity(O), chain, Home(O), {});
    TakeRowsOrigin(O, rmap, b0, R);
    var b := TakeRows(O, rmap, b0, R).value;
    var st := Derive(R, O, rmap, chain, nextId).value;
    forall L | 0 <= L < O ensures st.origin[L] < R && Owner(st, st.origin[L]) == Ent(L, OwnOrigin) {
      if L !in b.moved {
        assert L !in rmap;
      }
    }
  }
}
