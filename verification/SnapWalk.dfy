/** Two things every op keeps: the physical row a snapshot read goes to, and the count of
    rows.  The first is why snapshot isolation can hold at all: redirects, creates and
    destroys move ownership between maps, never the row a live snapshot reads. */
module SnapWalk {
  import opened Counting
  import opened SnapState

  // ---- the walk of a live snapshot ------------------------------------------------------

  lemma {:induction false} RedirectWalk(st: St, L0: nat, oldP: nat, newP: nat, i: nat, L: nat)
    requires st.snaps != [] && L0 < |st.origin| && L < |st.origin| && i < |st.snaps|
    requires Shared(st, L0) && st.origin[L0] == oldP
    ensures Walk(ApplyRedirect(st, L0, oldP, newP), i, L) == Walk(st, i, L)
    decreases |st.snaps| - i
  {
    var s := ApplyRedirect(st, L0, oldP, newP);
    if i < |st.snaps| - 1 {
      RedirectWalk(st, L0, oldP, newP, i + 1, L);
    } else {
      assert Walk(s, i + 1, L) == s.origin[L] && Walk(st, i + 1, L) == st.origin[L];
    }
  }

  lemma {:induction false} CreateWalk(st: St, s: St, i: nat, L: nat)
    requires L < |st.origin| && s.origin == st.origin && i <= |st.snaps|
    requires |s.snaps| == |st.snaps| + 1 && s.snaps[..|st.snaps|] == st.snaps && s.snaps[|st.snaps|].exc == map[]
    ensures Walk(s, i, L) == Walk(st, i, L)
    decreases |st.snaps| - i
  {
    if i < |st.snaps| {
      assert s.snaps[i] == s.snaps[..|st.snaps|][i];
      CreateWalk(st, s, i + 1, L);
    } else {
      assert Walk(s, i + 1, L) == s.origin[L];
    }
  }

  lemma {:induction false} LabelWalk(st: St, s: St, i: nat, L: nat)
    requires Relabelled(st, s) && i <= |st.snaps| && L < |st.origin|
    ensures Walk(s, i, L) == Walk(st, i, L)
    decreases |st.snaps| - i
  {
    if i < |st.snaps| {
      LabelWalk(st, s, i + 1, L);
    }
  }

  /** behind the destroyed snapshot the chain is the same */
  lemma {:induction false} DestroyWalkNewer(st: St, s: St, i: nat, k: nat, L: nat)
    requires i < |st.snaps| && Destroyed(st, s, i) && i <= k <= |s.snaps| && L < |st.origin|
    ensures Walk(s, k, L) == Walk(st, k + 1, L)
    decreases |s.snaps| - k
  {
    hide DroppedRows, DroppedUsed, MergedExc;
    if k < |s.snaps| {
      DestroyWalkNewer(st, s, i, k + 1, L);
    }
  }

  lemma {:induction false} DestroyWalk(st: St, s: St, i: nat, k: nat, L: nat)
    requires i < |st.snaps| && Destroyed(st, s, i) && k <= |s.snaps| && L < |st.origin|
    ensures Walk(s, k, L) == Walk(st, OldIndex(i, k), L)
    decreases |s.snaps| - k
  {
    hide DroppedRows, DroppedUsed;
    if i <= k {
      DestroyWalkNewer(st, s, i, k, L);
    } else if k + 1 == i {
      DestroyWalkNewer(st, s, i, i, L);
      assert Walk(st, i, L) == if L in st.snaps[i].exc then st.snaps[i].exc[L] else Walk(st, i + 1, L);
    } else {
      DestroyWalk(st, s, i, k + 1, L);
    }
  }

  /** Where the snapshot at position k is after the op; a destroyed one is nowhere. */
  function NewIndex(st: St, op: Op, k: nat): nat
    requires Applicable(st, op)
  {
    if op.Destroy? && k > IndexOf(st.snaps, op.slot) then k - 1 else k
  }

  predicate Survives(st: St, op: Op, k: nat)
    requires Applicable(st, op)
  {
    k < |st.snaps| && !(op.Destroy? && k == IndexOf(st.snaps, op.slot))
  }

  ghost predicate SameWalk(st: St, s: St, k: nat, k': nat, L: nat) {
    && k < |st.snaps| && k' < |s.snaps| && s.snaps[k'].id == st.snaps[k].id
    && L < |st.origin| == |s.origin| && Walk(s, k', L) == Walk(st, k, L)
  }

  lemma DestroyStable(st: St, s: St, i: nat, k: nat, k': nat, L: nat)
    requires i < |st.snaps| && Destroyed(st, s, i) && Shape(st) && L < st.O
    requires k' < |s.snaps| && k == OldIndex(i, k')
    ensures SameWalk(st, s, k, k', L)
  {
    assert |s.snaps| == |st.snaps| - 1 && s.origin == st.origin;
    hide Destroyed;
    DestroyWalk(st, s, i, k', L);
    DestroyedSnap(st, s, i, k');
  }

  lemma RedirectStable(st: St, L0: nat, oldP: nat, newP: nat, k: nat, L: nat)
    requires Shape(st) && OpOk(st, Redirect(L0, oldP, newP)) && k < |st.snaps| && L < st.O
    ensures SameWalk(st, ApplyRedirect(st, L0, oldP, newP), k, k, L)
  {
    RedirectWalk(st, L0, oldP, newP, k, L);
  }

  lemma CreateStable(st: St, slot: nat, id: nat, ctime: int, name: Text, attrs: Text, k: nat, L: nat)
    requires Shape(st) && k < |st.snaps| && L < st.O
    ensures SameWalk(st, ApplyCreate(st, slot, id, ctime, name, attrs), k, k, L)
  {
    var s := ApplyCreate(st, slot, id, ctime, name, attrs);
    assert s.snaps[..|st.snaps|] == st.snaps;
    CreateWalk(st, s, k, L);
  }

  lemma LabelStable(st: St, s: St, k: nat, L: nat)
    requires Shape(st) && Relabelled(st, s) && k < |st.snaps| && L < st.O
    ensures SameWalk(st, s, k, k, L)
  {
    LabelWalk(st, s, k, L);
  }

  lemma ApplyDestroyStable(st: St, slot: nat, k: nat, L: nat)
    requires Coherent(st) && IndexOf(st.snaps, slot) < |st.snaps|
    requires Survives(st, Destroy(slot), k) && L < st.O
    ensures SameWalk(st, ApplyDestroy(st, slot), k, NewIndex(st, Destroy(slot), k), L)
  {
    CoherentParts(st);
    hide Coherent, RmapNormal, OriginCoherent, UsedCovers, Counted, ExceptionsOwned, ChainOrdered;
    DestroyLeaves(st, slot);
    assert |ApplyDestroy(st, slot).snaps| == |st.snaps| - 1;
    hide Destroyed, ApplyDestroy, SameWalk;
    DestroyStable(st, ApplyDestroy(st, slot), IndexOf(st.snaps, slot), k, NewIndex(st, Destroy(slot), k), L);
  }

  /** A snapshot reads the same physical row at L before and after any op but its own
      destroy: ownership moves between the maps, the row does not. */
  lemma WalkStable(st: St, op: Op, k: nat, L: nat)
    requires Coherent(st) && OpOk(st, op) && Applicable(st, op) && Survives(st, op, k) && L < st.O
    ensures SameWalk(st, Apply(st, op), k, NewIndex(st, op, k), L)
  {
    CoherentParts(st);
    hide Coherent, SameWalk, RmapNormal, OriginCoherent, UsedCovers, Counted, ExceptionsOwned, ChainOrdered;
    hide ApplyDestroy, ApplyRedirect, ApplyCreate, ApplyName, ApplyAttrs, Relabelled;
    match op {
      case Redirect(L0, oldP, newP) => RedirectStable(st, L0, oldP, newP, k, L);
      case Create(slot, id, ctime, name, attrs) => CreateStable(st, slot, id, ctime, name, attrs, k, L);
      case Destroy(slot) => ApplyDestroyStable(st, slot, k, L);
      case Rename(slot, name) =>
        Relabels(st, slot, name);
        LabelStable(st, ApplyName(st, slot, name), k, L);
      case Set(slot, attrs) =>
        Relabels(st, slot, attrs);
        LabelStable(st, ApplyAttrs(st, slot, attrs), k, L);
    }
  }

  /** A new snapshot reads the origin's rows. */
  lemma CreatedWalk(st: St, slot: nat, id: nat, ctime: int, name: Text, attrs: Text, L: nat)
    requires L < |st.origin|
    ensures Walk(ApplyCreate(st, slot, id, ctime, name, attrs), |st.snaps|, L) == st.origin[L]
  {
    var s := ApplyCreate(st, slot, id, ctime, name, attrs);
    assert Walk(s, |st.snaps| + 1, L) == s.origin[L];
  }

  /** What a snapshot reads is owned: by a snapshot, or by the origin at a row the newest
      snapshot shares. */
  lemma {:induction false} WalkOwned(st: St, k: nat, L: nat)
    requires Coherent(st) && k <= |st.snaps| && L < st.O
    ensures Walk(st, k, L) < st.R
    ensures var e := Owner(st, Walk(st, k, L));
      e.L == L && (e.own.OwnSnap? || (e.own.OwnOrigin? && Walk(st, k, L) == st.origin[L]
                                      && (k < |st.snaps| ==> Shared(st, L))))
    decreases |st.snaps| - k
  {
    hide RmapNormal, OwnersExcept, Counted, ChainOrdered, UsedCovers;
    if k < |st.snaps| && L !in st.snaps[k].exc {
      WalkOwned(st, k + 1, L);
    }
  }

  // ---- conservation -------------------------------------------------------------------------

  ghost function TotalExceptions(snaps: seq<Snap>): nat {
    if snaps == [] then 0 else TotalExceptions(snaps[..|snaps| - 1]) + snaps[|snaps| - 1].nexc
  }

  ghost function RowsOwned(st: St, own: Own): set<nat> {
    set P | P in Below(st.R) && Owner(st, P).own == own
  }

  /** the rows owned by one of the first n snapshots */
  ghost function SnapRows(st: St, n: nat): set<nat>
    requires n <= |st.snaps|
  {
    set P | P in Below(st.R) && exists i :: 0 <= i < n && Owner(st, P).own == OwnSnap(st.snaps[i].slot)
  }

  lemma OriginRowsCount(st: St)
    requires Shape(st) && OriginCoherent(st)
    ensures |RowsOwned(st, OwnOrigin)| == st.O
  {
    var f: nat -> nat := (L: nat) => if L < |st.origin| then st.origin[L] else 0;
    var g: nat -> nat := (P: nat) => Owner(st, P).L;
    PairedOff<nat, nat>(Below(st.O), RowsOwned(st, OwnOrigin), f, g);
  }

  lemma OneSnapCount(st: St, i: nat)
    requires Coherent(st) && i < |st.snaps|
    ensures |RowsOwned(st, OwnSnap(st.snaps[i].slot))| == st.snaps[i].nexc
  {
    var exc := st.snaps[i].exc;
    var f: nat -> nat := (L: nat) => if L in exc then exc[L] else 0;
    var g: nat -> nat := (P: nat) => Owner(st, P).L;
    var rows := RowsOwned(st, OwnSnap(st.snaps[i].slot));
    forall P | P in rows ensures g(P) in exc.Keys && f(g(P)) == P {
      var k: nat :| Excepted(st, k, P);
      assert k == i;
    }
    forall L | L in exc.Keys ensures f(L) in rows && g(f(L)) == L {
      assert Owner(st, exc[L]) == Ent(L, OwnSnap(st.snaps[i].slot));
    }
    PairedOff<nat, nat>(exc.Keys, rows, f, g);
    assert st.snaps[i].nexc == |exc|;
  }

  lemma SnapRowsStep(st: St, n: nat)
    requires ChainOrdered(st.snaps, st.nextId) && 0 < n <= |st.snaps|
    ensures |SnapRows(st, n)| == |SnapRows(st, n - 1)| + |RowsOwned(st, OwnSnap(st.snaps[n - 1].slot))|
  {
    hide Owner;
    var last := RowsOwned(st, OwnSnap(st.snaps[n - 1].slot));
    assert SnapRows(st, n) == SnapRows(st, n - 1) + last;
    assert SnapRows(st, n - 1) !! last;
  }

  lemma TotalStep(snaps: seq<Snap>, n: nat)
    requires 0 < n <= |snaps|
    ensures TotalExceptions(snaps[..n]) == TotalExceptions(snaps[..n - 1]) + snaps[n - 1].nexc
  {
    assert snaps[..n][..n - 1] == snaps[..n - 1];
  }

  lemma {:induction false} SnapRowsCount(st: St, n: nat)
    requires Coherent(st) && n <= |st.snaps|
    ensures |SnapRows(st, n)| == TotalExceptions(st.snaps[..n])
  {
    hide Coherent, RowsOwned;
    if n == 0 {
      assert SnapRows(st, 0) == {};
    } else {
      CoherentParts(st);
      hide *;
      SnapRowsCount(st, n - 1);
      OneSnapCount(st, n - 1);
      SnapRowsStep(st, n);
      TotalStep(st.snaps, n);
    }
  }

  lemma OwnerKinds(st: St)
    requires OwnersExcept(st)
    ensures |Below(st.R)| == |RowsOwned(st, OwnOrigin)| + |SnapRows(st, |st.snaps|)| + |RowsOwned(st, OwnFree)|
  {
    var a, b, c := RowsOwned(st, OwnOrigin), SnapRows(st, |st.snaps|), RowsOwned(st, OwnFree);
    assert Below(st.R) == a + b + c by {
      forall P | P in Below(st.R) ensures P in a + b + c {
        if Owner(st, P).own.OwnSnap? {
          var i: nat :| Excepted(st, i, P);
        }
      }
    }
    hide Owner, OwnersExcept;
    assert a !! b && (a + b) !! c;
    assert |a + b| == |a| + |b| && |a + b + c| == |a + b| + |c|;
  }

  /** Every physical row is the origin's, one snapshot's, or free:
      O + the exceptions of all snapshots + the free rows = R. */
  lemma RowsConserved(st: St)
    requires Coherent(st)
    ensures st.O + TotalExceptions(st.snaps) + |RowsOwned(st, OwnFree)| == st.R
  {
    OriginRowsCount(st);
    SnapRowsCount(st, |st.snaps|);
    assert st.snaps[..|st.snaps|] == st.snaps;
    OwnerKinds(st);
    hide *;
  }
}
