/** Native snapshots: the in-core state and what one journal op does to it
    (rk_snap_apply, km/raid_km-snap.c:622-722).  Origin rows L map to physical rows P;
    a linear chain of read-only snapshots, oldest first, each with its exceptions; one
    reverse map says whose every physical row is. */
module SnapState {

  const SLOTS: nat := 64
  /** reverse-map entries of one on-disk page */
  const RMAP_PER_PAGE: nat := 510
  /** journal records one commit writes at most */
  const JBUF: nat := 32

  type Text = string

  datatype Own = OwnOrigin | OwnSnap(slot: nat) | OwnFree

  /** rmap[P] = {L, owner} */
  datatype Ent = Ent(L: nat, own: Own)

  datatype Snap = Snap(id: nat, slot: nat, ctime: int, name: Text, attrs: Text, exc: map<nat, nat>, nexc: nat)

  datatype Op =
    | Redirect(L: nat, oldP: nat, newP: nat)
    | Create(slot: nat, id: nat, ctime: int, name: Text, attrs: Text)
    | Destroy(slot: nat)
    | Rename(slot: nat, name: Text)
    | Set(slot: nat, attrs: Text)

  /** R physical rows, O origin rows; rmap holds the entries that are not the default. */
  datatype St = St(R: nat, O: nat, origin: seq<nat>, rmap: map<nat, Ent>, snaps: seq<Snap>,
                   used: set<nat>, nextId: nat)

  // ---- the reverse map ----------------------------------------------------------------

  /** rk_sn_default */
  function Default(O: nat, P: nat): Ent {
    if P < O then Ent(P, OwnOrigin) else Ent(0, OwnFree)
  }

  /** rk_sn_rmap_get */
  function RmapGet(O: nat, rmap: map<nat, Ent>, P: nat): Ent {
    if P in rmap then rmap[P] else Default(O, P)
  }

  /** rk_sn_rmap_set: a default entry is not stored */
  function RmapSet(O: nat, rmap: map<nat, Ent>, P: nat, e: Ent): (m: map<nat, Ent>)
    ensures RmapGet(O, m, P) == if e.own.OwnFree? then Ent(0, OwnFree) else e
    ensures forall Q :: Q != P ==> RmapGet(O, m, Q) == RmapGet(O, rmap, Q)
  {
    var e := if e.own.OwnFree? then Ent(0, OwnFree) else e;
    if e == Default(O, P) then rmap - {P} else rmap[P := e]
  }

  function Owner(st: St, P: nat): Ent {
    RmapGet(st.O, st.rmap, P)
  }

  // ---- the chain -------------------------------------------------------------------------

  /** The position of the snapshot in this table slot, |snaps| when there is none. */
  function IndexOf(snaps: seq<Snap>, slot: nat): (i: nat)
    ensures i <= |snaps|
    ensures i < |snaps| ==> snaps[i].slot == slot
    ensures forall k :: 0 <= k < i ==> snaps[k].slot != slot
  {
    if snaps == [] || snaps[0].slot == slot then 0
    else
      var r := IndexOf(snaps[1..], slot);
      assert forall k :: 1 <= k < r + 1 ==> snaps[k] == snaps[1..][k - 1];
      1 + r
  }

  /** Origin row L is shared with the newest snapshot. */
  predicate Shared(st: St, L: nat) {
    st.snaps != [] && L !in st.snaps[|st.snaps| - 1].exc
  }

  /** The physical row a read of snapshot i at L goes to: the first exception from i
      towards the newest, else the origin's row (rk_snap_submit_bio). */
  function Walk(st: St, i: nat, L: nat): nat
    requires i <= |st.snaps| && L < |st.origin|
    decreases |st.snaps| - i
  {
    if i == |st.snaps| then st.origin[L]
    else if L in st.snaps[i].exc then st.snaps[i].exc[L]
    else Walk(st, i + 1, L)
  }

  // ---- applying an op ----------------------------------------------------------------------

  function ApplyRedirect(st: St, L: nat, oldP: nat, newP: nat): St
    requires st.snaps != [] && L < |st.origin|
  {
    var n := |st.snaps| - 1;
    var g := st.snaps[n];
    st.(snaps := st.snaps[n := g.(exc := g.exc[L := oldP], nexc := g.nexc + 1)],
        rmap := RmapSet(st.O, RmapSet(st.O, st.rmap, oldP, Ent(L, OwnSnap(g.slot))), newP, Ent(L, OwnOrigin)),
        origin := st.origin[L := newP],
        used := st.used + {newP})
  }

  function ApplyCreate(st: St, slot: nat, id: nat, ctime: int, name: Text, attrs: Text): St {
    st.(snaps := st.snaps + [Snap(id, slot, ctime, name, attrs, map[], 0)],
        nextId := if id >= st.nextId then id + 1 else st.nextId)
  }

  /** One exception of the snapshot at i that goes: to the next older one where that one
      read through it, else free. */
  function DropRow(st: St, i: nat, L: nat): (s: St)
    requires i < |st.snaps| && L in st.snaps[i].exc
    ensures |s.snaps| == |st.snaps| && s.snaps[i] == st.snaps[i]
  {
    var P := st.snaps[i].exc[L];
    if i > 0 && L !in st.snaps[i - 1].exc then
      var o := st.snaps[i - 1];
      st.(snaps := st.snaps[i - 1 := o.(exc := o.exc[L := P], nexc := o.nexc + 1)],
          rmap := RmapSet(st.O, st.rmap, P, Ent(L, OwnSnap(o.slot))))
    else
      st.(rmap := RmapSet(st.O, st.rmap, P, Ent(0, OwnFree)), used := st.used - {P})
  }

  /** ... for the exceptions below n, in order of L. */
  function DropRows(st: St, i: nat, n: nat): (s: St)
    requires i < |st.snaps|
    ensures |s.snaps| == |st.snaps| && s.snaps[i] == st.snaps[i]
  {
    if n == 0 then st
    else
      var s := DropRows(st, i, n - 1);
      if n - 1 in st.snaps[i].exc then DropRow(s, i, n - 1) else s
  }

  function ApplyDestroy(st: St, slot: nat): St
    requires IndexOf(st.snaps, slot) < |st.snaps|
  {
    var i := IndexOf(st.snaps, slot);
    var s := DropRows(st, i, st.O);
    s.(snaps := s.snaps[..i] + s.snaps[i + 1..])
  }

  function ApplyName(st: St, slot: nat, name: Text): St
    requires IndexOf(st.snaps, slot) < |st.snaps|
  {
    var i := IndexOf(st.snaps, slot);
    st.(snaps := st.snaps[i := st.snaps[i].(name := name)])
  }

  function ApplyAttrs(st: St, slot: nat, attrs: Text): St
    requires IndexOf(st.snaps, slot) < |st.snaps|
  {
    var i := IndexOf(st.snaps, slot);
    st.(snaps := st.snaps[i := st.snaps[i].(attrs := attrs)])
  }

  /** What rk_snap_apply needs of an op so as not to fault. */
  predicate Applicable(st: St, op: Op) {
    match op
    case Redirect(L, _, _) => st.snaps != [] && L < |st.origin|
    case Create(slot, _, _, _, _) => IndexOf(st.snaps, slot) == |st.snaps|
    case Destroy(slot) => IndexOf(st.snaps, slot) < |st.snaps|
    case Rename(slot, _) => IndexOf(st.snaps, slot) < |st.snaps|
    case Set(slot, _) => IndexOf(st.snaps, slot) < |st.snaps|
  }

  function Apply(st: St, op: Op): St
    requires Applicable(st, op)
  {
    match op
    case Redirect(L, oldP, newP) => ApplyRedirect(st, L, oldP, newP)
    case Create(slot, id, ctime, name, attrs) => ApplyCreate(st, slot, id, ctime, name, attrs)
    case Destroy(slot) => ApplyDestroy(st, slot)
    case Rename(slot, name) => ApplyName(st, slot, name)
    case Set(slot, attrs) => ApplyAttrs(st, slot, attrs)
  }

  /** A create puts the new snapshot, as it was asked for and with nothing of its own, at the young
      end of the chain. */
  lemma CreateAdds(st: St, slot: nat, id: nat, ctime: int, name: Text, attrs: Text)
    requires IndexOf(st.snaps, slot) == |st.snaps|
    ensures var s := Apply(st, Create(slot, id, ctime, name, attrs));
      && s == st.(snaps := s.snaps, nextId := s.nextId)
      && |s.snaps| == |st.snaps| + 1 && s.snaps[|st.snaps|] == Snap(id, slot, ctime, name, attrs, map[], 0)
      && (forall k :: 0 <= k < |st.snaps| ==> s.snaps[k] == st.snaps[k])
      && s.nextId > id && s.nextId >= st.nextId
  {
  }

  /** A rename and a set change the name or the attributes of the first snapshot in that slot, and
      nothing else of it or of any other. */
  lemma RenameNames(st: St, slot: nat, name: Text, attrs: Text)
    requires IndexOf(st.snaps, slot) < |st.snaps|
    ensures var s, r := Apply(st, Rename(slot, name)), Apply(st, Set(slot, attrs));
      && s == st.(snaps := s.snaps) && r == st.(snaps := r.snaps) && |s.snaps| == |r.snaps| == |st.snaps|
      && forall k :: 0 <= k < |st.snaps| ==>
           var its := st.snaps[k].slot == slot && forall i :: 0 <= i < k ==> st.snaps[i].slot != slot;
           && s.snaps[k] == (if its then st.snaps[k].(name := name) else st.snaps[k])
           && r.snaps[k] == (if its then st.snaps[k].(attrs := attrs) else st.snaps[k])
  {
  }

  /** the reverse-map pages an op changes */
  ghost function DirtyPages(st: St, op: Op): set<nat> {
    match op
    case Redirect(_, oldP, newP) => {oldP / RMAP_PER_PAGE, newP / RMAP_PER_PAGE}
    case Destroy(slot) =>
      var i := IndexOf(st.snaps, slot);
      if i < |st.snaps| then DropPages(st.snaps[i].exc, st.O) else {}
    case _ => {}
  }

  ghost function DropPages(exc: map<nat, nat>, n: nat): set<nat> {
    if n == 0 then {}
    else DropPages(exc, n - 1) + if n - 1 in exc then {exc[n - 1] / RMAP_PER_PAGE} else {}
  }

  // ---- coherence ------------------------------------------------------------------------------

  ghost predicate Shape(st: St) {
    0 < st.O < st.R && |st.origin| == st.O
  }

  /** the reverse map is in range and stores no default */
  ghost predicate RmapNormal(st: St) {
    forall P :: P in st.rmap ==>
      P < st.R && st.rmap[P] != Default(st.O, P) && (st.rmap[P].own.OwnFree? ==> st.rmap[P].L == 0)
  }

  /** origin and reverse map undo each other */
  ghost predicate OriginCoherent(st: St)
    requires Shape(st)
  {
    && (forall L :: 0 <= L < st.O ==> st.origin[L] < st.R && Owner(st, st.origin[L]) == Ent(L, OwnOrigin))
    && (forall P :: 0 <= P < st.R && Owner(st, P).own.OwnOrigin? ==>
          Owner(st, P).L < st.O && st.origin[Owner(st, P).L] == P)
  }

  /** distinct table slots, ids in chain order */
  ghost predicate ChainOrdered(snaps: seq<Snap>, nextId: nat) {
    && (forall i :: 0 <= i < |snaps| ==> snaps[i].slot < SLOTS && snaps[i].id < nextId)
    && (forall i, j :: 0 <= i < j < |snaps| ==> snaps[i].slot != snaps[j].slot && snaps[i].id < snaps[j].id)
  }

  /** an exception's row is the snapshot's in the reverse map ... */
  ghost predicate ExceptionsOwned(st: St) {
    forall i, L :: 0 <= i < |st.snaps| && L in st.snaps[i].exc ==>
      L < st.O && st.snaps[i].exc[L] < st.R
      && Owner(st, st.snaps[i].exc[L]) == Ent(L, OwnSnap(st.snaps[i].slot))
  }

  /** P is an exception of snapshot i, at the L the reverse map says */
  predicate Excepted(st: St, i: nat, P: nat) {
    && i < |st.snaps| && Owner(st, P).own == OwnSnap(st.snaps[i].slot)
    && Owner(st, P).L in st.snaps[i].exc && st.snaps[i].exc[Owner(st, P).L] == P
  }

  /** ... and a row a snapshot owns is its exception */
  ghost predicate OwnersExcept(st: St) {
    forall P :: 0 <= P < st.R && Owner(st, P).own.OwnSnap? ==> exists i: nat :: Excepted(st, i, P)
  }

  ghost predicate Counted(snaps: seq<Snap>) {
    forall i :: 0 <= i < |snaps| ==> snaps[i].nexc == |snaps[i].exc|
  }

  /** every owned row is marked; a marked row nobody owns is reserved by a COW */
  ghost predicate UsedCovers(st: St) {
    && (forall P :: P in st.used ==> P < st.R)
    && (forall P :: 0 <= P < st.R && !Owner(st, P).own.OwnFree? ==> P in st.used)
  }

  ghost predicate Coherent(st: St) {
    && Shape(st) && RmapNormal(st) && OriginCoherent(st)
    && ChainOrdered(st.snaps, st.nextId) && Counted(st.snaps)
    && ExceptionsOwned(st) && OwnersExcept(st)
    && UsedCovers(st)
  }

  /** An op the run-time protocol hands to the commit (stronger than rk_sn_op_valid: the
      newest snapshot has no copy of L yet, and newP is nobody's). */
  ghost predicate OpOk(st: St, op: Op) {
    match op
    case Redirect(L, oldP, newP) =>
      && L < st.O == |st.origin| && Shared(st, L)
      && st.origin[L] == oldP && oldP < st.R
      && newP < st.R && Owner(st, newP).own.OwnFree?
    case Create(slot, id, _, name, attrs) =>
      slot < SLOTS && IndexOf(st.snaps, slot) == |st.snaps| && id == st.nextId
    case Destroy(slot) => IndexOf(st.snaps, slot) < |st.snaps|
    case Rename(slot, _) => IndexOf(st.snaps, slot) < |st.snaps|
    case Set(slot, _) => IndexOf(st.snaps, slot) < |st.snaps|
  }

  /** rk_sn_op_valid: what replay checks of an op before it applies it */
  predicate OpValid(st: St, op: Op) {
    match op
    case Redirect(L, oldP, newP) =>
      && st.snaps != [] && L < st.O && L < |st.origin| && newP < st.R && oldP < st.R
      && st.origin[L] == oldP && newP !in st.used
    case Create(slot, _, _, _, _) => slot < SLOTS && IndexOf(st.snaps, slot) == |st.snaps|
    case Destroy(slot) => slot < SLOTS && IndexOf(st.snaps, slot) < |st.snaps|
    case Rename(slot, _) => slot < SLOTS && IndexOf(st.snaps, slot) < |st.snaps|
    case Set(slot, _) => slot < SLOTS && IndexOf(st.snaps, slot) < |st.snaps|
  }

  lemma IndexOfAt(snaps: seq<Snap>, nextId: nat, i: nat)
    requires ChainOrdered(snaps, nextId) && i < |snaps|
    ensures IndexOf(snaps, snaps[i].slot) == i
  {
    var k := IndexOf(snaps, snaps[i].slot);
  }

  lemma CoherentParts(st: St)
    requires Coherent(st)
    ensures Shape(st) && OriginCoherent(st) && UsedCovers(st)
    ensures RmapNormal(st) && Counted(st.snaps) && ExceptionsOwned(st) && ChainOrdered(st.snaps, st.nextId)
  {
  }

  // ---- every op keeps the maps mutually inverse ------------------------------------------------

  lemma SetTwo(O: nat, rmap: map<nat, Ent>, a: nat, ea: Ent, b: nat, eb: Ent, P: nat)
    requires a != b && !ea.own.OwnFree? && !eb.own.OwnFree?
    ensures RmapGet(O, RmapSet(O, RmapSet(O, rmap, a, ea), b, eb), P) ==
      if P == b then eb else if P == a then ea else RmapGet(O, rmap, P)
  {
    hide RmapGet;
  }

  /** the origin's row is the origin's, and not the free one */
  lemma RedirectRows(st: St, L: nat, oldP: nat, newP: nat)
    requires Shape(st) && OriginCoherent(st) && OpOk(st, Redirect(L, oldP, newP))
    ensures oldP != newP && Owner(st, oldP) == Ent(L, OwnOrigin)
  {
    hide Owner;
  }

  lemma RedirectOwners(st: St, L: nat, oldP: nat, newP: nat, P: nat)
    requires Coherent(st) && OpOk(st, Redirect(L, oldP, newP))
    ensures oldP != newP && Owner(st, oldP) == Ent(L, OwnOrigin)
    ensures Owner(ApplyRedirect(st, L, oldP, newP), P) ==
      if P == newP then Ent(L, OwnOrigin)
      else if P == oldP then Ent(L, OwnSnap(st.snaps[|st.snaps| - 1].slot))
      else Owner(st, P)
  {
    CoherentParts(st);
    hide Coherent, ChainOrdered, Counted, ExceptionsOwned, OwnersExcept, UsedCovers, RmapNormal, RmapSet, RmapGet;
    RedirectRows(st, L, oldP, newP);
    hide OriginCoherent;
    SetTwo(st.O, st.rmap, oldP, Ent(L, OwnSnap(st.snaps[|st.snaps| - 1].slot)), newP, Ent(L, OwnOrigin), P);
  }

  lemma RedirectMaps(st: St, L: nat, oldP: nat, newP: nat)
    requires Coherent(st) && OpOk(st, Redirect(L, oldP, newP))
    ensures var s := ApplyRedirect(st, L, oldP, newP);
      Shape(s) && RmapNormal(s) && OriginCoherent(s)
  {
    hide ChainOrdered, Counted, ExceptionsOwned, OwnersExcept, UsedCovers;
    forall P {
      RedirectOwners(st, L, oldP, newP, P);
    }
  }

  lemma RedirectUsed(st: St, L: nat, oldP: nat, newP: nat)
    requires Coherent(st) && OpOk(st, Redirect(L, oldP, newP))
    ensures UsedCovers(ApplyRedirect(st, L, oldP, newP))
  {
    hide ChainOrdered, Counted, ExceptionsOwned, OwnersExcept, OriginCoherent, RmapNormal;
    forall P {
      RedirectOwners(st, L, oldP, newP, P);
    }
  }

  lemma RedirectChain(st: St, L: nat, oldP: nat, newP: nat)
    requires ChainOrdered(st.snaps, st.nextId) && Counted(st.snaps) && OpOk(st, Redirect(L, oldP, newP))
    ensures var s := ApplyRedirect(st, L, oldP, newP);
      ChainOrdered(s.snaps, s.nextId) && Counted(s.snaps)
  {
  }

  lemma RedirectException(st: St, L: nat, oldP: nat, newP: nat, i: nat, K: nat)
    requires Coherent(st) && OpOk(st, Redirect(L, oldP, newP))
    requires var s := ApplyRedirect(st, L, oldP, newP); i < |s.snaps| && K in s.snaps[i].exc
    ensures var s := ApplyRedirect(st, L, oldP, newP); var P := s.snaps[i].exc[K];
      K < s.O && P < s.R && Owner(s, P) == Ent(K, OwnSnap(s.snaps[i].slot))
  {
    CoherentParts(st);
    hide Coherent, OriginCoherent, RmapNormal, UsedCovers, OwnersExcept, Counted, ChainOrdered, Owner;
    var s := ApplyRedirect(st, L, oldP, newP);
    var P := s.snaps[i].exc[K];
    RedirectOwners(st, L, oldP, newP, P);
    if i == |st.snaps| - 1 && K == L {
      assert P == oldP;
    } else {
      assert K in st.snaps[i].exc && st.snaps[i].exc[K] == P;
    }
  }

  lemma RedirectExceptions(st: St, L: nat, oldP: nat, newP: nat)
    requires Coherent(st) && OpOk(st, Redirect(L, oldP, newP))
    ensures ExceptionsOwned(ApplyRedirect(st, L, oldP, newP))
  {
    assert st.snaps != [] && L < |st.origin|;
    hide Coherent, Owner, OpOk;
    var s := ApplyRedirect(st, L, oldP, newP);
    forall i, K | 0 <= i < |s.snaps| && K in s.snaps[i].exc
      ensures K < s.O && s.snaps[i].exc[K] < s.R && Owner(s, s.snaps[i].exc[K]) == Ent(K, OwnSnap(s.snaps[i].slot))
    {
      hide ApplyRedirect;
      RedirectException(st, L, oldP, newP, i, K);
    }
  }

  lemma RedirectExcepted(st: St, L: nat, oldP: nat, newP: nat)
    requires Coherent(st) && OpOk(st, Redirect(L, oldP, newP))
    ensures OwnersExcept(ApplyRedirect(st, L, oldP, newP))
  {
    var s := ApplyRedirect(st, L, oldP, newP);
    assert OwnersExcept(st);
    hide Coherent;
    forall P | 0 <= P < s.R && Owner(s, P).own.OwnSnap? ensures exists i: nat :: Excepted(s, i, P) {
      RedirectOwners(st, L, oldP, newP, P);
      if P == oldP {
        RedirectExceptedOld(st, L, oldP, newP);
      } else {
        var i: nat :| Excepted(st, i, P);
        RedirectExceptedKept(st, L, oldP, newP, i, P);
      }
    }
  }

  lemma RedirectExceptedOld(st: St, L: nat, oldP: nat, newP: nat)
    requires st.snaps != [] && L < |st.origin|
    requires Owner(ApplyRedirect(st, L, oldP, newP), oldP) == Ent(L, OwnSnap(st.snaps[|st.snaps| - 1].slot))
    ensures Excepted(ApplyRedirect(st, L, oldP, newP), |st.snaps| - 1, oldP)
  {
    hide Owner;
  }

  lemma RedirectExceptedKept(st: St, L: nat, oldP: nat, newP: nat, i: nat, P: nat)
    requires OpOk(st, Redirect(L, oldP, newP)) && Excepted(st, i, P)
    requires Owner(ApplyRedirect(st, L, oldP, newP), P) == Owner(st, P)
    ensures Excepted(ApplyRedirect(st, L, oldP, newP), i, P)
  {
    hide Owner;
  }

  lemma RedirectCoherent(st: St, L: nat, oldP: nat, newP: nat)
    requires Coherent(st) && OpOk(st, Redirect(L, oldP, newP))
    ensures Coherent(ApplyRedirect(st, L, oldP, newP))
  {
    RedirectMaps(st, L, oldP, newP);
    RedirectUsed(st, L, oldP, newP);
    CoherentParts(st);
    RedirectChain(st, L, oldP, newP);
    RedirectExceptions(st, L, oldP, newP);
    RedirectExcepted(st, L, oldP, newP);
  }

  /** younger than every snapshot of the chain */
  predicate Later(snaps: seq<Snap>, id: nat) {
    forall i :: 0 <= i < |snaps| ==> snaps[i].id < id
  }

  lemma NextIsLater(st: St)
    requires Coherent(st)
    ensures Later(st.snaps, st.nextId)
  {
    CoherentParts(st);
    hide Coherent, OriginCoherent, RmapNormal, ExceptionsOwned, Counted, UsedCovers;
  }

  lemma CreateExceptions(st: St, slot: nat, id: nat, ctime: int, name: Text, attrs: Text)
    requires ExceptionsOwned(st)
    ensures ExceptionsOwned(ApplyCreate(st, slot, id, ctime, name, attrs))
  {
    var s := ApplyCreate(st, slot, id, ctime, name, attrs);
    assert forall P :: Owner(s, P) == Owner(st, P);
    hide Owner;
    forall i, L | 0 <= i < |s.snaps| && L in s.snaps[i].exc
      ensures L < s.O && s.snaps[i].exc[L] < s.R
      ensures Owner(s, s.snaps[i].exc[L]) == Ent(L, OwnSnap(s.snaps[i].slot))
    {
      assert i < |st.snaps| && s.snaps[i] == st.snaps[i];
    }
  }

  lemma CreateExcepts(st: St, slot: nat, id: nat, ctime: int, name: Text, attrs: Text)
    requires OwnersExcept(st)
    ensures OwnersExcept(ApplyCreate(st, slot, id, ctime, name, attrs))
  {
    var s := ApplyCreate(st, slot, id, ctime, name, attrs);
    assert forall P :: Owner(s, P) == Owner(st, P);
    hide Owner;
    forall P | 0 <= P < s.R && Owner(s, P).own.OwnSnap? ensures exists i: nat :: Excepted(s, i, P) {
      var i: nat :| Excepted(st, i, P);
      assert Excepted(s, i, P);
    }
  }

  lemma CreateRows(st: St, slot: nat, id: nat, ctime: int, name: Text, attrs: Text)
    requires Shape(st) && RmapNormal(st) && OriginCoherent(st) && UsedCovers(st)
    ensures var s := ApplyCreate(st, slot, id, ctime, name, attrs);
      Shape(s) && RmapNormal(s) && OriginCoherent(s) && UsedCovers(s)
  {
    assert forall P :: Owner(ApplyCreate(st, slot, id, ctime, name, attrs), P) == Owner(st, P);
    hide Owner;
  }

  lemma CreateCoherent(st: St, slot: nat, id: nat, ctime: int, name: Text, attrs: Text)
    requires Coherent(st) && slot < SLOTS && IndexOf(st.snaps, slot) == |st.snaps| && Later(st.snaps, id)
    ensures Coherent(ApplyCreate(st, slot, id, ctime, name, attrs))
  {
    CoherentParts(st);
    assert OwnersExcept(st);
    hide *;
    CreateChain(st, slot, id, ctime, name, attrs);
    CreateExceptions(st, slot, id, ctime, name, attrs);
    CreateExcepts(st, slot, id, ctime, name, attrs);
    CreateRows(st, slot, id, ctime, name, attrs);
    CoherentJoin(ApplyCreate(st, slot, id, ctime, name, attrs));
  }

  lemma CreateChain(st: St, slot: nat, id: nat, ctime: int, name: Text, attrs: Text)
    requires ChainOrdered(st.snaps, st.nextId) && Counted(st.snaps)
    requires slot < SLOTS && IndexOf(st.snaps, slot) == |st.snaps| && Later(st.snaps, id)
    ensures var s := ApplyCreate(st, slot, id, ctime, name, attrs);
      ChainOrdered(s.snaps, s.nextId) && Counted(s.snaps)
  {
  }

  lemma CoherentJoin(st: St)
    requires Shape(st) && RmapNormal(st) && OriginCoherent(st)
    requires ChainOrdered(st.snaps, st.nextId) && Counted(st.snaps)
    requires ExceptionsOwned(st) && OwnersExcept(st) && UsedCovers(st)
    ensures Coherent(st)
  {
  }

  /** s is st but for labels: names and attributes of snapshots */
  ghost predicate Relabelled(st: St, s: St) {
    && s == st.(snaps := s.snaps) && |s.snaps| == |st.snaps|
    && forall i :: 0 <= i < |st.snaps| ==>
         s.snaps[i] == st.snaps[i].(name := s.snaps[i].name, attrs := s.snaps[i].attrs)
  }

  lemma Relabels(st: St, slot: nat, text: Text)
    requires IndexOf(st.snaps, slot) < |st.snaps|
    ensures Relabelled(st, ApplyName(st, slot, text)) && Relabelled(st, ApplyAttrs(st, slot, text))
  {
  }

  lemma LabelCoherent(st: St, s: St)
    requires Coherent(st) && Relabelled(st, s)
    ensures Coherent(s)
  {
    assert forall P :: Owner(s, P) == Owner(st, P);
    assert OwnersExcept(s) by {
      forall P | 0 <= P < s.R && Owner(s, P).own.OwnSnap? ensures exists i: nat :: Excepted(s, i, P) {
        var i: nat :| Excepted(st, i, P);
        assert Excepted(s, i, P);
      }
    }
  }

  // ---- destroy ---------------------------------------------------------------------------------

  /** the exceptions below n are gone from snapshot i's hands */
  ghost predicate Moves(st: St, i: nat, L: nat)
    requires i < |st.snaps|
  {
    i > 0 && L !in st.snaps[i - 1].exc
  }

  /** Whose P is once the exceptions of snapshot i below n are dropped. */
  ghost function OwnerAfter(st: St, i: nat, n: nat, P: nat): Ent
    requires i < |st.snaps|
  {
    var e := Owner(st, P);
    if e.own != OwnSnap(st.snaps[i].slot) || e.L >= n then e
    else if Moves(st, i, e.L) then Ent(e.L, OwnSnap(st.snaps[i - 1].slot))
    else Ent(0, OwnFree)
  }

  /** the next older snapshot's exceptions then */
  ghost function ExcAfter(st: St, i: nat, n: nat): map<nat, nat>
    requires 0 < i < |st.snaps|
  {
    st.snaps[i - 1].exc + map L | L in st.snaps[i].exc && L < n && L !in st.snaps[i - 1].exc :: st.snaps[i].exc[L]
  }

  /** What dropping the exceptions below n leaves: the chain, ... */
  ghost predicate DroppedChain(st: St, s: St, i: nat, n: nat)
    requires i < |st.snaps|
  {
    && s == st.(rmap := s.rmap, snaps := s.snaps, used := s.used)
    && |s.snaps| == |st.snaps|
    && (forall k :: 0 <= k < |st.snaps| && k != i - 1 ==> s.snaps[k] == st.snaps[k])
    && (i > 0 ==> s.snaps[i - 1] == st.snaps[i - 1].(exc := ExcAfter(st, i, n), nexc := |ExcAfter(st, i, n)|))
  }

  /** ... the reverse map, ... */
  ghost predicate DroppedRows(st: St, s: St, i: nat, n: nat)
    requires i < |st.snaps|
  {
    RmapNormal(s) && forall P: nat :: Owner(s, P) == OwnerAfter(st, i, n, P)
  }

  /** ... and the used rows. */
  ghost predicate DroppedUsed(st: St, s: St) {
    forall P: nat :: P in s.used <==> P in st.used && (Owner(s, P).own.OwnFree? ==> Owner(st, P).own.OwnFree?)
  }

  ghost predicate Dropped(st: St, s: St, i: nat, n: nat)
    requires i < |st.snaps|
  {
    DroppedChain(st, s, i, n) && DroppedRows(st, s, i, n) && DroppedUsed(st, s)
  }

  /** the rows snapshot i owns at L: its exception, and no other */
  ghost predicate OwnsAt(st: St, i: nat, L: nat)
    requires i < |st.snaps|
  {
    && (L in st.snaps[i].exc ==> st.snaps[i].exc[L] < st.R)
    && forall P: nat :: Owner(st, P) == Ent(L, OwnSnap(st.snaps[i].slot)) <==>
         L in st.snaps[i].exc && st.snaps[i].exc[L] == P
  }

  lemma ExceptionsOwnedAt(st: St, i: nat, L: nat)
    requires Coherent(st) && i < |st.snaps|
    ensures OwnsAt(st, i, L)
  {
    forall P: nat | Owner(st, P) == Ent(L, OwnSnap(st.snaps[i].slot))
      ensures L in st.snaps[i].exc && st.snaps[i].exc[L] == P
    {
      assert P < st.R;
      var k: nat :| Excepted(st, k, P);
      assert k == i;
    }
  }

  lemma DropRowOwner(st: St, s: St, i: nat, L: nat, P: nat)
    requires i < |st.snaps| && OwnsAt(st, i, L) && L in st.snaps[i].exc && DroppedChain(st, s, i, L)
    requires Owner(s, P) == OwnerAfter(st, i, L, P)
    ensures Owner(DropRow(s, i, L), P) == OwnerAfter(st, i, L + 1, P)
  {
    var P0 := st.snaps[i].exc[L];
    assert i > 0 ==> (L in s.snaps[i - 1].exc <==> L in st.snaps[i - 1].exc);
    assert Owner(DropRow(s, i, L), P) ==
      if P != P0 then Owner(s, P)
      else if Moves(st, i, L) then Ent(L, OwnSnap(st.snaps[i - 1].slot))
      else Ent(0, OwnFree);
    assert Owner(st, P) == Ent(L, OwnSnap(st.snaps[i].slot)) <==> P == P0;
  }

  lemma ExcAfterStep(st: St, i: nat, L: nat)
    requires 0 < i < |st.snaps|
    ensures ExcAfter(st, i, L + 1) ==
      if L in st.snaps[i].exc && Moves(st, i, L) then ExcAfter(st, i, L)[L := st.snaps[i].exc[L]] else ExcAfter(st, i, L)
    ensures L in ExcAfter(st, i, L) <==> L in st.snaps[i - 1].exc
  {
  }

  lemma DropRowChain(st: St, s: St, i: nat, L: nat)
    requires i < |st.snaps| && L in st.snaps[i].exc && DroppedChain(st, s, i, L)
    ensures DroppedChain(st, DropRow(s, i, L), i, L + 1)
  {
    if i > 0 {
      ExcAfterStep(st, i, L);
    }
  }

  lemma DropRowRows(st: St, s: St, i: nat, L: nat)
    requires i < |st.snaps| && OwnsAt(st, i, L) && L in st.snaps[i].exc && DroppedChain(st, s, i, L)
    requires DroppedRows(st, s, i, L)
    ensures DroppedRows(st, DropRow(s, i, L), i, L + 1)
  {
    forall P: nat ensures Owner(DropRow(s, i, L), P) == OwnerAfter(st, i, L + 1, P) {
      DropRowOwner(st, s, i, L, P);
    }
  }

  lemma DropRowUsed(st: St, s: St, i: nat, L: nat)
    requires i < |st.snaps| && OwnsAt(st, i, L) && L in st.snaps[i].exc && DroppedChain(st, s, i, L)
    requires DroppedRows(st, s, i, L) && DroppedUsed(st, s)
    ensures DroppedUsed(st, DropRow(s, i, L))
  {
    var t, P0 := DropRow(s, i, L), st.snaps[i].exc[L];
    assert Owner(st, P0) == Ent(L, OwnSnap(st.snaps[i].slot)) && Owner(s, P0) == OwnerAfter(st, i, L, P0);
    forall P: nat
      ensures P in t.used <==> P in st.used && (Owner(t, P).own.OwnFree? ==> Owner(st, P).own.OwnFree?)
    {
      assert P != P0 ==> Owner(t, P) == Owner(s, P);
    }
  }

  lemma DropNothing(st: St, s: St, i: nat, L: nat)
    requires i < |st.snaps| && OwnsAt(st, i, L) && Dropped(st, s, i, L) && L !in st.snaps[i].exc
    ensures Dropped(st, s, i, L + 1)
  {
    if i > 0 {
      ExcAfterStep(st, i, L);
    }
    forall P: nat ensures Owner(s, P) == OwnerAfter(st, i, L + 1, P) {
      assert Owner(st, P) != Ent(L, OwnSnap(st.snaps[i].slot));
    }
  }

  lemma DropNone(st: St, i: nat)
    requires i < |st.snaps| && RmapNormal(st) && Counted(st.snaps)
    ensures Dropped(st, st, i, 0)
  {
    if i > 0 {
      assert ExcAfter(st, i, 0) == st.snaps[i - 1].exc;
    }
  }

  lemma DropStep(st: St, s: St, i: nat, L: nat)
    requires i < |st.snaps| && OwnsAt(st, i, L) && Dropped(st, s, i, L)
    ensures Dropped(st, if L in st.snaps[i].exc then DropRow(s, i, L) else s, i, L + 1)
  {
    if L in st.snaps[i].exc {
      DropRowChain(st, s, i, L);
      DropRowRows(st, s, i, L);
      DropRowUsed(st, s, i, L);
    } else {
      DropNothing(st, s, i, L);
    }
  }

  lemma {:induction false} DropRowsLeaves(st: St, i: nat, n: nat)
    requires Coherent(st) && i < |st.snaps|
    ensures Dropped(st, DropRows(st, i, n), i, n)
  {
    hide Dropped, Coherent, OwnsAt, RmapNormal, Counted;
    if n == 0 {
      CoherentParts(st);
      DropNone(st, i);
    } else {
      DropRowsLeaves(st, i, n - 1);
      ExceptionsOwnedAt(st, i, n - 1);
      DropStep(st, DropRows(st, i, n - 1), i, n - 1);
    }
  }

  /** What destroying snapshot i leaves. */
  ghost predicate Destroyed(st: St, s: St, i: nat)
    requires i < |st.snaps|
  {
    && s == st.(rmap := s.rmap, snaps := s.snaps, used := s.used)
    && |s.snaps| == |st.snaps| - 1
    && (forall k :: 0 <= k < i - 1 ==> s.snaps[k] == st.snaps[k])
    && (forall k :: i <= k < |s.snaps| ==> s.snaps[k] == st.snaps[k + 1])
    && (i > 0 ==> s.snaps[i - 1] == st.snaps[i - 1].(exc := MergedExc(st, i), nexc := |MergedExc(st, i)|))
    && DroppedRows(st, s, i, st.O) && DroppedUsed(st, s)
  }

  /** The next older snapshot's exceptions, and the dropped ones where it had none. */
  ghost function MergedExc(st: St, i: nat): map<nat, nat>
    requires 0 < i < |st.snaps|
  {
    st.snaps[i].exc + st.snaps[i - 1].exc
  }

  lemma DestroyLeaves(st: St, slot: nat)
    requires Coherent(st) && IndexOf(st.snaps, slot) < |st.snaps|
    ensures Destroyed(st, ApplyDestroy(st, slot), IndexOf(st.snaps, slot))
  {
    var i := IndexOf(st.snaps, slot);
    var s := DropRows(st, i, st.O);
    DropRowsLeaves(st, i, st.O);
    assert i > 0 ==> ExcAfter(st, i, st.O) == MergedExc(st, i) by {
      if i > 0 {
        AllDropped(st, i);
      }
    }
    DroppedToDestroyed(st, s, i);
  }

  lemma DroppedToDestroyed(st: St, s: St, i: nat)
    requires i < |st.snaps| && Dropped(st, s, i, st.O)
    requires i > 0 ==> ExcAfter(st, i, st.O) == MergedExc(st, i)
    ensures Destroyed(st, s.(snaps := s.snaps[..i] + s.snaps[i + 1..]), i)
  {
    hide ExcAfter, MergedExc, DroppedRows, DroppedUsed;
    var t := s.(snaps := s.snaps[..i] + s.snaps[i + 1..]);
    SameRows(st, s, t, i, st.O);
  }

  lemma AllDropped(st: St, i: nat)
    requires ExceptionsOwned(st) && 0 < i < |st.snaps|
    ensures ExcAfter(st, i, st.O) == MergedExc(st, i)
  {
    assert forall L :: L in st.snaps[i].exc ==> L < st.O;
  }

  lemma SameRows(st: St, s: St, t: St, i: nat, n: nat)
    requires i < |st.snaps| && DroppedRows(st, s, i, n) && DroppedUsed(st, s)
    requires t.rmap == s.rmap && t.used == s.used && t.O == s.O && t.R == s.R
    ensures DroppedRows(st, t, i, n) && DroppedUsed(st, t)
  {
    assert forall P: nat :: Owner(t, P) == Owner(s, P);
  }

  lemma DestroyOwner(st: St, s: St, i: nat, P: nat)
    requires Coherent(st) && i < |st.snaps| && Destroyed(st, s, i)
    ensures Owner(s, P) ==
      var e := Owner(st, P);
      if e.own != OwnSnap(st.snaps[i].slot) then e
      else if i > 0 && e.L !in st.snaps[i - 1].exc then Ent(e.L, OwnSnap(st.snaps[i - 1].slot))
      else Ent(0, OwnFree)
    ensures Owner(st, P).own == OwnSnap(st.snaps[i].slot) ==> Excepted(st, i, P)
  {
    hide Counted, ExceptionsOwned, OriginCoherent, UsedCovers, MergedExc;
    assert DroppedRows(st, s, i, st.O);
    hide Destroyed;
    if Owner(st, P).own == OwnSnap(st.snaps[i].slot) {
      assert P < st.R;
      var k: nat :| Excepted(st, k, P);
      assert k == i;
      assert st.snaps[i].exc[Owner(st, P).L] == P;
      assert Owner(st, P).L < st.O by {
        CoherentParts(st);
      }
    }
  }

  lemma DestroyCoherent(st: St, slot: nat)
    requires Coherent(st) && IndexOf(st.snaps, slot) < |st.snaps|
    ensures Coherent(ApplyDestroy(st, slot))
  {
    var i, s := IndexOf(st.snaps, slot), ApplyDestroy(st, slot);
    DestroyLeaves(st, slot);
    DestroyedMaps(st, s, i);
    DestroyedChain(st, s, i);
    DestroyedExceptions(st, s, i);
    DestroyedExcepted(st, s, i);
  }

  lemma DestroyedMaps(st: St, s: St, i: nat)
    requires Coherent(st) && i < |st.snaps| && Destroyed(st, s, i)
    ensures Shape(s) && RmapNormal(s) && OriginCoherent(s) && UsedCovers(s)
  {
    forall P: nat {
      DestroyOwner(st, s, i, P);
    }
  }

  /** the old position of the k-th snapshot left */
  function OldIndex(i: nat, k: nat): nat {
    if k < i then k else k + 1
  }

  lemma DestroyedSnap(st: St, s: St, i: nat, k: nat)
    requires i < |st.snaps| && Destroyed(st, s, i) && k < |s.snaps|
    ensures OldIndex(i, k) < |st.snaps|
    ensures s.snaps[k].slot == st.snaps[OldIndex(i, k)].slot && s.snaps[k].id == st.snaps[OldIndex(i, k)].id
    ensures s.snaps[k].exc == if k + 1 == i then MergedExc(st, i) else st.snaps[OldIndex(i, k)].exc
  {
  }

  lemma DestroyedChain(st: St, s: St, i: nat)
    requires i < |st.snaps| && Destroyed(st, s, i)
    requires ChainOrdered(st.snaps, st.nextId) && Counted(st.snaps)
    ensures ChainOrdered(s.snaps, s.nextId) && Counted(s.snaps)
  {
    assert ChainOrdered(s.snaps, s.nextId) by {
      hide Counted, Destroyed;
      forall k | 0 <= k < |s.snaps| {
        DestroyedSnap(st, s, i, k);
      }
      assert s.nextId == st.nextId by { assert Destroyed(st, s, i); }
    }
    hide ChainOrdered;
  }

  lemma DestroyedExceptions(st: St, s: St, i: nat)
    requires Coherent(st) && i < |st.snaps| && Destroyed(st, s, i)
    ensures ExceptionsOwned(s)
  {
    forall k, L | 0 <= k < |s.snaps| && L in s.snaps[k].exc
      ensures L < s.O && s.snaps[k].exc[L] < s.R && Owner(s, s.snaps[k].exc[L]) == Ent(L, OwnSnap(s.snaps[k].slot))
    {
      DestroyedException(st, s, i, k, L);
    }
  }

  lemma MergedFrom(st: St, s: St, i: nat, k: nat, L: nat)
    requires i < |st.snaps| && Destroyed(st, s, i) && k < |s.snaps| && L in s.snaps[k].exc
    ensures OldIndex(i, k) < |st.snaps|
    ensures var k0 := if k + 1 == i && L !in st.snaps[k].exc then i else OldIndex(i, k);
      L in st.snaps[k0].exc && st.snaps[k0].exc[L] == s.snaps[k].exc[L]
  {
    DestroyedSnap(st, s, i, k);
    hide Destroyed;
  }

  lemma DestroyedException(st: St, s: St, i: nat, k: nat, L: nat)
    requires Coherent(st) && i < |st.snaps| && Destroyed(st, s, i) && k < |s.snaps| && L in s.snaps[k].exc
    ensures L < s.O && s.snaps[k].exc[L] < s.R && Owner(s, s.snaps[k].exc[L]) == Ent(L, OwnSnap(s.snaps[k].slot))
  {
    assert s.O == st.O && s.R == st.R;
    hide Destroyed, Owner, Coherent;
    var P := s.snaps[k].exc[L];
    DestroyedSnap(st, s, i, k);
    DestroyOwner(st, s, i, P);
    CoherentParts(st);
    hide RmapNormal, Counted;
    hide MergedExc;
    var k0 := if k + 1 == i && L !in st.snaps[k].exc then i else OldIndex(i, k);
    MergedFrom(st, s, i, k, L);
    assert Owner(st, P) == Ent(L, OwnSnap(st.snaps[k0].slot));
    assert k0 != i ==> st.snaps[k0].slot != st.snaps[i].slot;
  }

  lemma DestroyedExcepted(st: St, s: St, i: nat)
    requires Coherent(st) && i < |st.snaps| && Destroyed(st, s, i)
    ensures OwnersExcept(s)
  {
    assert s.R == st.R;
    hide Destroyed;
    forall P: nat | P < s.R && Owner(s, P).own.OwnSnap? ensures exists k: nat :: Excepted(s, k, P) {
      DestroyOwner(st, s, i, P);
      if Owner(st, P).own == OwnSnap(st.snaps[i].slot) {
        DestroyedMoved(st, s, i, P);
      } else {
        var k: nat :| Excepted(st, k, P);
        DestroyedKept(st, s, i, k, P);
      }
    }
  }

  lemma DestroyedMoved(st: St, s: St, i: nat, P: nat)
    requires i < |st.snaps| && Destroyed(st, s, i) && Excepted(st, i, P)
    requires i > 0 && Owner(st, P).L !in st.snaps[i - 1].exc
    requires Owner(s, P) == Ent(Owner(st, P).L, OwnSnap(st.snaps[i - 1].slot))
    ensures Excepted(s, i - 1, P)
  {
    DestroyedSnap(st, s, i, i - 1);
    hide Destroyed, Owner;
  }

  lemma DestroyedKept(st: St, s: St, i: nat, k: nat, P: nat)
    requires i < |st.snaps| && Destroyed(st, s, i) && k != i && Excepted(st, k, P)
    requires Owner(s, P) == Owner(st, P)
    ensures Excepted(s, if k < i then k else k - 1, P)
  {
    var k' := if k < i then k else k - 1;
    assert |s.snaps| == |st.snaps| - 1;
    DestroyedSnap(st, s, i, k');
    hide Destroyed, Owner;
  }

  /** Reverse-map coherence: every op of the run-time protocol keeps it. */
  lemma ApplyCoherent(st: St, op: Op)
    requires Coherent(st) && OpOk(st, op)
    ensures Applicable(st, op) && Coherent(Apply(st, op))
  {
    hide Coherent, Relabelled, ApplyRedirect, ApplyCreate, ApplyDestroy, ApplyName, ApplyAttrs;
    match op {
      case Redirect(L, oldP, newP) => RedirectCoherent(st, L, oldP, newP);
      case Create(slot, id, ctime, name, attrs) =>
        NextIsLater(st);
        CreateCoherent(st, slot, id, ctime, name, attrs);
      case Destroy(slot) => DestroyCoherent(st, slot);
      case Rename(slot, name) =>
        Relabels(st, slot, name);
        LabelCoherent(st, ApplyName(st, slot, name));
      case Set(slot, attrs) =>
        Relabels(st, slot, attrs);
        LabelCoherent(st, ApplyAttrs(st, slot, attrs));
    }
  }
}
