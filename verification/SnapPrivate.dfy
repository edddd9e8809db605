/** Which physical rows an origin write may touch: those no snapshot reads.  Every op but a
    create leaves such a row alone, so what snapshots read never changes. */
module SnapPrivate {
  import opened SnapState
  import opened SnapWalk
  import opened SnapDerive
  import opened SnapStored

  /** no snapshot reads this row: it is nobody's, or the origin's at a row not shared */
  predicate Private(st: St, P: nat) {
    match Owner(st, P).own
    case OwnFree => true
    case OwnOrigin => !Shared(st, Owner(st, P).L)
    case OwnSnap(_) => false
  }

  /** What a snapshot reads is never private. */
  lemma ReadNotPrivate(st: St, k: nat, L: nat)
    requires Coherent(st) && k < |st.snaps| && L < st.O
    ensures Walk(st, k, L) < st.R && !Private(st, Walk(st, k, L))
  {
    WalkOwned(st, k, L);
    hide Coherent, Walk, Owner;
  }

  // ---- private rows stay private -----------------------------------------------------------

  lemma RedirectPrivate(st: St, L: nat, oldP: nat, newP: nat, P: nat)
    requires Coherent(st) && OpOk(st, Redirect(L, oldP, newP)) && Private(st, P)
    ensures Private(ApplyRedirect(st, L, oldP, newP), P)
  {
    RedirectOwners(st, L, oldP, newP, P);
    hide Coherent, Owner;
  }

  /** a row the newest snapshot has its own copy of stays unshared when a snapshot goes */
  lemma DestroyedUnshared(st: St, s: St, i: nat, L: nat)
    requires i < |st.snaps| && Destroyed(st, s, i) && !Shared(st, L)
    ensures !Shared(s, L)
  {
    if s.snaps != [] {
      DestroyedSize(st, s, i);
      DestroyedSnap(st, s, i, |s.snaps| - 1);
      hide Destroyed;
    }
  }

  lemma DestroyPrivate(st: St, slot: nat, P: nat)
    requires Coherent(st) && OpOk(st, Destroy(slot)) && Private(st, P)
    ensures Private(ApplyDestroy(st, slot), P)
  {
    assert IndexOf(st.snaps, slot) < |st.snaps|;
    var i, s := IndexOf(st.snaps, slot), ApplyDestroy(st, slot);
    hide ApplyDestroy, Coherent, Owner, IndexOf, Destroyed, Shared, OpOk;
    DestroyLeaves(st, slot);
    DestroyOwner(st, s, i, P);
    if Owner(st, P).own.OwnOrigin? {
      DestroyedUnshared(st, s, i, Owner(st, P).L);
    }
  }

  lemma DestroyedSize(st: St, s: St, i: nat)
    requires i < |st.snaps| && Destroyed(st, s, i)
    ensures |s.snaps| == |st.snaps| - 1
  {
  }

  lemma LabelPrivate(st: St, s: St, P: nat)
    requires Relabelled(st, s) && Private(st, P)
    ensures Private(s, P)
  {
    assert Owner(s, P) == Owner(st, P);
    hide Owner;
  }

  /** An op keeps private rows private; a create only those nobody owns. */
  lemma PrivateStays(st: St, op: Op, P: nat)
    requires Coherent(st) && OpOk(st, op) && Applicable(st, op) && Private(st, P)
    requires op.Create? ==> Owner(st, P).own.OwnFree?
    ensures Private(Apply(st, op), P)
  {
    hide Coherent;
    match op {
      case Redirect(L, oldP, newP) => RedirectPrivate(st, L, oldP, newP, P);
      case Create(_, _, _, _, _) =>
      case Destroy(slot) => DestroyPrivate(st, slot, P);
      case Rename(slot, name) =>
        Relabels(st, slot, name);
        LabelPrivate(st, ApplyName(st, slot, name), P);
      case Set(slot, attrs) =>
        Relabels(st, slot, attrs);
        LabelPrivate(st, ApplyAttrs(st, slot, attrs), P);
    }
  }

  // ---- batches of independent ops --------------------------------------------------------------

  predicate Labels(op: Op) {
    op.Rename? || op.Set?
  }

  /** COWs of different rows into different rows, and a rename or set beside them */
  predicate Independent(a: Op, b: Op) {
    match a
    case Redirect(L, _, newP) => Labels(b) || (b.Redirect? && b.L != L && b.newP != newP)
    case Create(_, _, _, _, _) => false
    case Destroy(_) => false
    case Rename(_, _) => b.Redirect?
    case Set(_, _) => b.Redirect?
  }

  ghost predicate BatchOk(st: St, ops: seq<Op>) {
    && (forall i :: 0 <= i < |ops| ==> OpOk(st, ops[i]))
    && forall i, j :: 0 <= i < j < |ops| ==> Independent(ops[i], ops[j])
  }

  lemma RedirectsStay(st: St, L: nat, oldP: nat, newP: nat, L2: nat, oldP2: nat, newP2: nat)
    requires Coherent(st) && OpOk(st, Redirect(L, oldP, newP)) && OpOk(st, Redirect(L2, oldP2, newP2))
    requires L2 != L && newP2 != newP
    ensures OpOk(ApplyRedirect(st, L, oldP, newP), Redirect(L2, oldP2, newP2))
  {
    RedirectOwners(st, L, oldP, newP, newP2);
    hide Coherent, Owner;
  }

  lemma LabelAfterRedirect(st: St, L: nat, oldP: nat, newP: nat, b: Op)
    requires OpOk(st, Redirect(L, oldP, newP)) && OpOk(st, b) && Labels(b)
    ensures OpOk(ApplyRedirect(st, L, oldP, newP), b)
  {
    hide Owner, RmapSet;
    SameSlots(st.snaps, ApplyRedirect(st, L, oldP, newP).snaps, b.slot);
  }

  lemma RedirectStays(st: St, L: nat, oldP: nat, newP: nat, b: Op)
    requires Coherent(st) && OpOk(st, Redirect(L, oldP, newP)) && OpOk(st, b)
    requires Independent(Redirect(L, oldP, newP), b)
    ensures OpOk(ApplyRedirect(st, L, oldP, newP), b)
  {
    hide OpOk, ApplyRedirect, Coherent;
    if b.Redirect? {
      RedirectsStay(st, L, oldP, newP, b.L, b.oldP, b.newP);
    } else {
      LabelAfterRedirect(st, L, oldP, newP, b);
    }
  }

  lemma LabelStays(st: St, s: St, b: Op)
    requires Relabelled(st, s) && OpOk(st, b) && b.Redirect?
    ensures OpOk(s, b)
  {
    assert Owner(s, b.newP) == Owner(st, b.newP);
    hide Owner;
  }

  lemma IndependentStays(st: St, a: Op, b: Op)
    requires Coherent(st) && OpOk(st, a) && Applicable(st, a) && OpOk(st, b) && Independent(a, b)
    ensures OpOk(Apply(st, a), b)
  {
    hide Coherent, OpOk;
    match a {
      case Redirect(L, oldP, newP) => RedirectStays(st, L, oldP, newP, b);
      case Rename(slot, name) =>
        Relabels(st, slot, name);
        LabelStays(st, ApplyName(st, slot, name), b);
      case Set(slot, attrs) =>
        Relabels(st, slot, attrs);
        LabelStays(st, ApplyAttrs(st, slot, attrs), b);
    }
  }

  lemma BatchStep(st: St, ops: seq<Op>)
    requires Coherent(st) && BatchOk(st, ops) && ops != []
    ensures OpOk(st, ops[0]) && Applicable(st, ops[0]) && Coherent(Apply(st, ops[0]))
    ensures BatchOk(Apply(st, ops[0]), ops[1..])
  {
    ApplyCoherent(st, ops[0]);
    hide Coherent, OpOk, Apply, Applicable, Independent;
    var rest := ops[1..];
    forall i | 0 <= i < |rest| ensures OpOk(Apply(st, ops[0]), rest[i]) {
      assert rest[i] == ops[i + 1];
      IndependentStays(st, ops[0], ops[i + 1]);
    }
  }

  /** A batch whose ops were each right when they were queued applies, in any prefix. */
  lemma {:induction false} BatchApplies(st: St, ops: seq<Op>)
    requires Coherent(st) && BatchOk(st, ops)
    ensures OpsOk(st, ops) && Coherent(ApplyAll(st, ops))
    decreases |ops|
  {
    if ops != [] {
      BatchStep(st, ops);
      hide Coherent, OpOk, Apply, Applicable, BatchOk;
      BatchApplies(Apply(st, ops[0]), ops[1..]);
    }
  }

  lemma OnlyCreate(st: St, ops: seq<Op>, i: nat)
    requires BatchOk(st, ops) && i < |ops| && (ops[i].Create? || ops[i].Destroy?)
    ensures |ops| == 1
  {
    hide OpOk;
    assert i + 1 < |ops| ==> Independent(ops[i], ops[i + 1]);
    assert i > 0 ==> Independent(ops[i - 1], ops[i]);
  }

  predicate HasCreate(ops: seq<Op>) {
    exists i :: 0 <= i < |ops| && ops[i].Create?
  }

  /** A batch keeps private rows private; one with a create those nobody owns. */
  lemma {:induction false} BatchPrivate(st: St, ops: seq<Op>, P: nat)
    requires Coherent(st) && BatchOk(st, ops) && Private(st, P)
    requires HasCreate(ops) ==> Owner(st, P).own.OwnFree?
    ensures OpsOk(st, ops) && Private(ApplyAll(st, ops), P)
    decreases |ops|
  {
    BatchApplies(st, ops);
    if ops != [] {
      BatchStep(st, ops);
      if HasCreate(ops) {
        var i :| 0 <= i < |ops| && ops[i].Create?;
        OnlyCreate(st, ops, i);
      }
      hide Coherent, OpOk, Apply, Applicable, BatchOk, Owner;
      PrivateStays(st, ops[0], P);
      BatchPrivate(Apply(st, ops[0]), ops[1..], P);
    }
  }

  // ---- what snapshots read, over a batch -----------------------------------------------------------

  /** snapshot k' of s is snapshot k of st, and reads the same rows */
  ghost predicate SameReads(st: St, s: St, k: nat, k': nat) {
    && k < |st.snaps| && k' < |s.snaps| && s.snaps[k'].id == st.snaps[k].id
    && |s.origin| == |st.origin|
    && forall L :: 0 <= L < |st.origin| ==> Walk(s, k', L) == Walk(st, k, L)
  }

  /** every snapshot of s is new, or one of st that reads what it read there */
  ghost predicate Follows(st: St, s: St) {
    && s.R == st.R && s.O == st.O && s.nextId >= st.nextId
    && forall k' :: 0 <= k' < |s.snaps| ==> s.snaps[k'].id >= st.nextId || exists k :: SameReads(st, s, k, k')
  }

  lemma OpFollowsAt(st: St, op: Op, k: nat)
    requires Coherent(st) && OpOk(st, op) && Applicable(st, op) && Survives(st, op, k)
    ensures SameReads(st, Apply(st, op), k, NewIndex(st, op, k))
  {
    CoherentParts(st);
    WalkStable(st, op, k, 0);
    hide Coherent, Apply, Applicable, OpOk, Walk, Survives;
    forall L | 0 <= L < |st.origin| ensures Walk(Apply(st, op), NewIndex(st, op, k), L) == Walk(st, k, L) {
      WalkStable(st, op, k, L);
    }
  }

  lemma ChainAfter(st: St, op: Op)
    requires Coherent(st) && OpOk(st, op) && Applicable(st, op)
    ensures var s := Apply(st, op);
      s.R == st.R && s.O == st.O && s.nextId >= st.nextId
      && |s.snaps| == (if op.Create? then |st.snaps| + 1 else if op.Destroy? then |st.snaps| - 1 else |st.snaps|)
      && (op.Create? ==> s.snaps[|st.snaps|].id == st.nextId)
  {
    hide Coherent, OpOk;
    match op {
      case Destroy(slot) =>
        DestroyLeaves(st, slot);
        assert Destroyed(st, ApplyDestroy(st, slot), IndexOf(st.snaps, slot));
        hide ApplyDestroy;
      case Create(_, _, _, _, _) => CreateId(st, op);
      case _ =>
    }
  }

  lemma CreateId(st: St, op: Op)
    requires op.Create? && OpOk(st, op)
    ensures op.id == st.nextId
  {
  }

  lemma OpFollows(st: St, op: Op)
    requires Coherent(st) && OpOk(st, op) && Applicable(st, op)
    ensures Follows(st, Apply(st, op))
  {
    var s := Apply(st, op);
    ChainAfter(st, op);
    hide Coherent, OpOk, Apply, SameReads;
    forall k': nat | k' < |s.snaps| ensures s.snaps[k'].id >= st.nextId || exists k :: SameReads(st, s, k, k') {
      if !(op.Create? && k' == |st.snaps|) {
        var k := if op.Destroy? then OldIndex(IndexOf(st.snaps, op.slot), k') else k';
        OpFollowsAt(st, op, k);
        assert NewIndex(st, op, k) == k';
      }
    }
  }

  lemma SameReadsTwice(st: St, u: St, s: St, k: nat, j: nat, i: nat)
    requires SameReads(st, u, k, j) && SameReads(u, s, j, i)
    ensures SameReads(st, s, k, i)
  {
    hide Walk;
  }

  lemma FollowsTwice(st: St, u: St, s: St)
    requires Follows(st, u) && Follows(u, s)
    ensures Follows(st, s)
  {
    hide SameReads;
    forall i: nat | i < |s.snaps| ensures s.snaps[i].id >= st.nextId || exists k :: SameReads(st, s, k, i) {
      if s.snaps[i].id < st.nextId {
        var j: nat :| SameReads(u, s, j, i);
        SameReadsIds(u, s, j, i);
        var k: nat :| SameReads(st, u, k, j);
        SameReadsTwice(st, u, s, k, j, i);
      }
    }
  }

  lemma SameReadsIds(st: St, s: St, k: nat, i: nat)
    requires SameReads(st, s, k, i)
    ensures k < |st.snaps| && i < |s.snaps| && s.snaps[i].id == st.snaps[k].id
  {
  }

  lemma FollowsSelf(st: St)
    ensures Follows(st, st)
  {
    forall i | 0 <= i < |st.snaps| ensures st.snaps[i].id >= st.nextId || exists k :: SameReads(st, st, k, i) {
      assert SameReads(st, st, i, i);
    }
  }

  /** No batch changes what a snapshot reads that is there before and after it. */
  lemma {:induction false} BatchFollows(st: St, ops: seq<Op>)
    requires Coherent(st) && BatchOk(st, ops)
    ensures OpsOk(st, ops) && Follows(st, ApplyAll(st, ops))
    decreases |ops|
  {
    BatchApplies(st, ops);
    if ops == [] {
      FollowsSelf(st);
    } else {
      BatchStep(st, ops);
      hide Coherent, OpOk, Apply, Applicable, BatchOk, Follows;
      OpFollows(st, ops[0]);
      BatchFollows(Apply(st, ops[0]), ops[1..]);
      FollowsTwice(st, Apply(st, ops[0]), ApplyAll(st, ops));
    }
  }
}
