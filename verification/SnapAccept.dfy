/** What the two checks of a load let through: the check of an op before replay applies it, and
    the checks of derive (km/raid_km-snapmeta.c:1031-1128).  Each accepts input that leaves the
    maps no longer inverse; here is exactly which, and an input for each case. */
module SnapAccept {
  import opened SnapState
  import opened SnapDerive
  import opened SnapLoad
  import opened SnapRegion
  import SnapFound

  // ---- an op that passes the check ----------------------------------------------------------------

  /** what the check does not look at */
  predicate Right(st: St, op: Op) {
    match op
    case Redirect(L, _, _) => Shared(st, L)
    case Create(_, id, _, _, _) => Later(st.snaps, id)
    case _ => true
  }

  lemma ValidRedirect(st: St, L: nat, oldP: nat, newP: nat)
    requires Coherent(st) && OpValid(st, Redirect(L, oldP, newP)) && Shared(st, L)
    ensures OpOk(st, Redirect(L, oldP, newP))
  {
    CoherentParts(st);
    hide Coherent, OriginCoherent, RmapNormal, ExceptionsOwned, ChainOrdered, Counted, Owner;
  }

  lemma ValidApplies(st: St, op: Op)
    requires OpValid(st, op)
    ensures Applicable(st, op)
  {
  }

  lemma RightKeeps(st: St, op: Op)
    requires Coherent(st) && OpValid(st, op) && Right(st, op) && Applicable(st, op)
    ensures Coherent(Apply(st, op))
  {
    hide Coherent;
    match op {
      case Redirect(L, oldP, newP) =>
        ValidRedirect(st, L, oldP, newP);
        ApplyCoherent(st, op);
      case Create(slot, id, ctime, name, attrs) =>
        hide ApplyCreate;
        CreateCoherent(st, slot, id, ctime, name, attrs);
      case _ => ApplyCoherent(st, op);
    }
  }

  lemma CopyRows(st: St, L: nat, oldP: nat, newP: nat)
    requires Coherent(st) && OpValid(st, Redirect(L, oldP, newP)) && !Shared(st, L)
    ensures var g := st.snaps[|st.snaps| - 1];
      && L in g.exc && g.exc[L] < st.R && Owner(st, g.exc[L]) == Ent(L, OwnSnap(g.slot))
      && g.exc[L] != oldP && g.exc[L] != newP && oldP != newP
    ensures forall i, k :: 0 <= i < k < |st.snaps| ==> st.snaps[i].slot != st.snaps[k].slot
  {
    CoherentParts(st);
    hide Coherent, RmapNormal, Counted;
    assert Owner(st, oldP) == Ent(L, OwnOrigin);
    hide Owner;
  }

  lemma OwnerKept(st: St, L: nat, oldP: nat, newP: nat, P: nat)
    requires st.snaps != [] && L < |st.origin| && P != oldP && P != newP && oldP != newP
    ensures Owner(ApplyRedirect(st, L, oldP, newP), P) == Owner(st, P)
  {
    SetTwo(st.O, st.rmap, oldP, Ent(L, OwnSnap(st.snaps[|st.snaps| - 1].slot)), newP, Ent(L, OwnOrigin), P);
    hide RmapSet, RmapGet;
  }

  /** A redirect of a row the newest snapshot has its own copy of: the copy's row stays the
      snapshot's in the reverse map, and is no exception any more. */
  lemma CopyLost(st: St, L: nat, oldP: nat, newP: nat) returns (P: nat)
    requires Coherent(st) && OpValid(st, Redirect(L, oldP, newP)) && !Shared(st, L)
    ensures var s := ApplyRedirect(st, L, oldP, newP);
      P < s.R && Owner(s, P).own.OwnSnap? && forall i: nat :: !Excepted(s, i, P)
  {
    CopyRows(st, L, oldP, newP);
    assert st.snaps != [] && L < |st.origin| && ApplyRedirect(st, L, oldP, newP).R == st.R;
    P := st.snaps[|st.snaps| - 1].exc[L];
    OwnerKept(st, L, oldP, newP, P);
    hide Coherent, OpValid, ApplyRedirect, Owner, Excepted;
    forall i: nat ensures !Excepted(ApplyRedirect(st, L, oldP, newP), i, P) {
      NotExcepted(st, L, oldP, newP, P, i);
    }
  }

  lemma NotExcepted(st: St, L: nat, oldP: nat, newP: nat, P: nat, i: nat)
    requires st.snaps != [] && L < |st.origin| && P != oldP
    requires Owner(ApplyRedirect(st, L, oldP, newP), P) == Ent(L, OwnSnap(st.snaps[|st.snaps| - 1].slot))
    requires forall i, k :: 0 <= i < k < |st.snaps| ==> st.snaps[i].slot != st.snaps[k].slot
    ensures ApplyRedirect(st, L, oldP, newP).R == st.R && !Excepted(ApplyRedirect(st, L, oldP, newP), i, P)
  {
    hide Owner, RmapSet;
  }

  /** a snapshot no younger than one of the chain breaks the chain's order */
  lemma IdOutOfOrder(st: St, slot: nat, id: nat, ctime: int, name: Text, attrs: Text)
    requires !Later(st.snaps, id)
    ensures var s := ApplyCreate(st, slot, id, ctime, name, attrs); !ChainOrdered(s.snaps, s.nextId)
  {
    var s := ApplyCreate(st, slot, id, ctime, name, attrs);
    var i :| 0 <= i < |st.snaps| && st.snaps[i].id >= id;
    assert s.snaps[i].id >= s.snaps[|st.snaps|].id;
  }

  lemma WrongBreaks(st: St, op: Op)
    requires Coherent(st) && OpValid(st, op) && !Right(st, op) && Applicable(st, op)
    ensures !Coherent(Apply(st, op))
  {
    match op {
      case Redirect(L, oldP, newP) =>
        hide Coherent;
        var P := CopyLost(st, L, oldP, newP);
        RowLost(ApplyRedirect(st, L, oldP, newP), P);
      case Create(slot, id, ctime, name, attrs) =>
        IdOutOfOrder(st, slot, id, ctime, name, attrs);
        hide ApplyCreate, ChainOrdered;
    }
  }

  lemma RowLost(st: St, P: nat)
    requires P < st.R && Owner(st, P).own.OwnSnap? && forall i: nat :: !Excepted(st, i, P)
    ensures !Coherent(st)
  {
    hide Owner, Excepted;
  }

  /** An op that passes the check leaves the maps inverse exactly when the row it redirects is
      shared with the newest snapshot, or the snapshot it creates is younger than the others. */
  lemma ValidExactly(st: St, op: Op)
    requires Coherent(st) && OpValid(st, op)
    ensures Applicable(st, op) && (Coherent(Apply(st, op)) <==> Right(st, op))
  {
    hide *;
    ValidApplies(st, op);
    if Right(st, op) {
      RightKeeps(st, op);
    } else {
      WrongBreaks(st, op);
    }
  }

  /** replay takes all of these ops, one after the other */
  predicate Taken(st: St, ops: seq<Op>)
    decreases |ops|
  {
    ops == [] || (OpValid(st, ops[0]) && Applicable(st, ops[0]) && Taken(Apply(st, ops[0]), ops[1..]))
  }

  ghost predicate EachCoherent(st: St, ops: seq<Op>)
    requires Taken(st, ops)
    decreases |ops|
  {
    ops == [] || (Coherent(Apply(st, ops[0])) && EachCoherent(Apply(st, ops[0]), ops[1..]))
  }

  predicate EachRight(st: St, ops: seq<Op>)
    requires Taken(st, ops)
    decreases |ops|
  {
    ops == [] || (Right(st, ops[0]) && EachRight(Apply(st, ops[0]), ops[1..]))
  }

  lemma {:induction false} ReplayTakes(v: Live, ops: seq<Op>)
    ensures ReplayOps(v, ops).Ok? <==> Taken(v.st, ops)
    decreases |ops|
  {
    hide OpValid, Applicable, Apply, DirtyPages;
    if ops != [] && OpValid(v.st, ops[0]) && Applicable(v.st, ops[0]) {
      ReplayTakes(Live(Apply(v.st, ops[0]), v.rdirty + DirtyPages(v.st, ops[0])), ops[1..]);
    }
  }

  lemma {:induction false} EachExactly(st: St, ops: seq<Op>)
    requires Coherent(st) && Taken(st, ops)
    ensures EachCoherent(st, ops) <==> EachRight(st, ops)
    decreases |ops|
  {
    hide OpValid, Applicable, Apply, Right, Coherent;
    if ops != [] {
      ValidExactly(st, ops[0]);
      if Coherent(Apply(st, ops[0])) {
        EachExactly(Apply(st, ops[0]), ops[1..]);
      }
    }
  }

  /** Whatever ops a journal holds: a replay that takes them keeps the maps inverse from op to op
      exactly when each is right where it is applied. */
  lemma ReplayExactly(v: Live, ops: seq<Op>)
    requires Coherent(v.st) && ReplayOps(v, ops).Ok?
    ensures Taken(v.st, ops) && (EachCoherent(v.st, ops) <==> EachRight(v.st, ops))
  {
    hide *;
    ReplayTakes(v, ops);
    EachExactly(v.st, ops);
  }

  // ---- a reverse map that derive accepts -----------------------------------------------------------

  /** two rows are not the same snapshot's copy of the same origin row */
  ghost predicate Distinct(rmap: map<nat, Ent>) {
    forall P, Q :: P in rmap && Q in rmap && P != Q && rmap[P].own.OwnSnap? ==> rmap[P] != rmap[Q]
  }

  /** owners that a byte holds */
  ghost predicate SlotsFit(rmap: map<nat, Ent>) {
    forall P :: P in rmap && rmap[P].own.OwnSnap? ==> rmap[P].own.slot < 256
  }

  /** the maps undo each other: coherent, but for defaults the reverse map may store */
  ghost predicate MapsInverse(st: St) {
    && Shape(st) && OriginCoherent(st) && ChainOrdered(st.snaps, st.nextId) && Counted(st.snaps)
    && ExceptionsOwned(st) && OwnersExcept(st) && UsedCovers(st)
  }

  /** the chain as the snapshot table gives it */
  ghost predicate BareTable(chain: seq<Snap>, nextId: nat) {
    ChainOrdered(chain, nextId) && forall i :: 0 <= i < |chain| ==> chain[i].exc == map[] && chain[i].nexc == 0
  }

  /** the i-th snapshot has exactly the rows below n that the reverse map says are its */
  ghost predicate ExcBuilt(O: nat, rmap: map<nat, Ent>, g: Snap, n: nat) {
    && g.nexc == |g.exc|
    && (forall L :: L in g.exc ==>
          L < O && g.exc[L] < n && g.exc[L] in rmap && rmap[g.exc[L]] == Ent(L, OwnSnap(g.slot)))
    && (forall P :: P in rmap && P < n && rmap[P].own == OwnSnap(g.slot) ==>
          rmap[P].L in g.exc && g.exc[rmap[P].L] == P)
  }

  ghost predicate ChainBuilt(O: nat, rmap: map<nat, Ent>, chain: seq<Snap>, b: Built, n: nat) {
    && |b.snaps| == |chain|
    && (forall i :: 0 <= i < |chain| ==>
          b.snaps[i] == chain[i].(exc := b.snaps[i].exc, nexc := b.snaps[i].nexc) && ExcBuilt(O, rmap, b.snaps[i], n))
    && forall P :: P in rmap && P < n && rmap[P].own.OwnSnap? ==> IndexOf(chain, rmap[P].own.slot) < |chain|
  }

  ghost predicate UsedBuilt(O: nat, rmap: map<nat, Ent>, b: Built, n: nat) {
    forall P: nat :: P in b.used <==> if P in rmap && P < n then !rmap[P].own.OwnFree? else P < O
  }

  lemma ExcNoRow(O: nat, rmap: map<nat, Ent>, g: Snap, P: nat)
    requires ExcBuilt(O, rmap, g, P) && (P in rmap ==> rmap[P].own != OwnSnap(g.slot))
    ensures ExcBuilt(O, rmap, g, P + 1)
  {
  }

  lemma ExcOneRow(O: nat, rmap: map<nat, Ent>, g: Snap, P: nat)
    requires ExcBuilt(O, rmap, g, P) && Distinct(rmap)
    requires P in rmap && rmap[P].own == OwnSnap(g.slot) && rmap[P].L < O
    ensures ExcBuilt(O, rmap, g.(exc := g.exc[rmap[P].L := P], nexc := g.nexc + 1), P + 1)
  {
    var L := rmap[P].L;
    assert L !in g.exc;
    assert |g.exc[L := P]| == |g.exc| + 1;
  }

  lemma ChainUntouched(O: nat, rmap: map<nat, Ent>, chain: seq<Snap>, b: Built, b': Built, P: nat)
    requires ChainBuilt(O, rmap, chain, b, P) && b'.snaps == b.snaps && (P in rmap ==> !rmap[P].own.OwnSnap?)
    ensures ChainBuilt(O, rmap, chain, b', P + 1)
  {
    hide ExcBuilt, IndexOf;
    forall i | 0 <= i < |chain| ensures ExcBuilt(O, rmap, b'.snaps[i], P + 1) {
      ExcNoRow(O, rmap, b.snaps[i], P);
    }
  }

  lemma RowsSnap(O: nat, rmap: map<nat, Ent>, chain: seq<Snap>, b: Built, P: nat) returns (k: nat)
    requires ChainBuilt(O, rmap, chain, b, P) && SlotsFit(rmap)
    requires P in rmap && rmap[P].own.OwnSnap? && TakeRow(O, rmap, b, P).Ok?
    ensures k == IndexOf(chain, rmap[P].own.slot) < |b.snaps| == |chain| && rmap[P].L < O
    ensures var g := b.snaps[k];
      TakeRow(O, rmap, b, P).value.snaps == b.snaps[k := g.(exc := g.exc[rmap[P].L := P], nexc := g.nexc + 1)]
  {
    var slot := rmap[P].own.slot;
    assert SlotArg(slot) == slot;
    SameSlots(b.snaps, chain, slot);
    k := IndexOf(chain, slot);
    hide IndexOf, ExcBuilt;
  }

  /** the row goes to the snapshot of its slot, and to no other */
  lemma ChainOneRow(O: nat, rmap: map<nat, Ent>, chain: seq<Snap>, b: Built, P: nat, nextId: nat)
    requires ChainBuilt(O, rmap, chain, b, P) && ChainOrdered(chain, nextId) && Distinct(rmap) && SlotsFit(rmap)
    requires P in rmap && rmap[P].own.OwnSnap? && TakeRow(O, rmap, b, P).Ok?
    ensures ChainBuilt(O, rmap, chain, TakeRow(O, rmap, b, P).value, P + 1)
  {
    var k := RowsSnap(O, rmap, chain, b, P);
    var b' := TakeRow(O, rmap, b, P).value;
    hide IndexOf, ExcBuilt, SlotsFit, TakeRow;
    forall i | 0 <= i < |chain|
      ensures b'.snaps[i] == chain[i].(exc := b'.snaps[i].exc, nexc := b'.snaps[i].nexc)
      ensures ExcBuilt(O, rmap, b'.snaps[i], P + 1)
    {
      if i == k {
        ExcOneRow(O, rmap, b.snaps[i], P);
      } else {
        ExcNoRow(O, rmap, b.snaps[i], P);
      }
    }
  }

  lemma UsedOneRow(O: nat, rmap: map<nat, Ent>, b: Built, P: nat)
    requires UsedBuilt(O, rmap, b, P)
    ensures P !in rmap ==> UsedBuilt(O, rmap, b, P + 1)
    ensures P in rmap && TakeRow(O, rmap, b, P).Ok? ==> UsedBuilt(O, rmap, TakeRow(O, rmap, b, P).value, P + 1)
  {
    hide IndexOf;
  }

  lemma SnapsSame(O: nat, rmap: map<nat, Ent>, b: Built, P: nat)
    requires P in rmap && !rmap[P].own.OwnSnap? && TakeRow(O, rmap, b, P).Ok?
    ensures TakeRow(O, rmap, b, P).value.snaps == b.snaps
  {
  }

  lemma OneRow(O: nat, rmap: map<nat, Ent>, chain: seq<Snap>, b: Built, P: nat, nextId: nat)
    requires ChainBuilt(O, rmap, chain, b, P) && UsedBuilt(O, rmap, b, P) && (P in rmap ==> TakeRow(O, rmap, b, P).Ok?)
    requires ChainOrdered(chain, nextId) && Distinct(rmap) && SlotsFit(rmap)
    ensures var b' := if P in rmap then TakeRow(O, rmap, b, P).value else b;
      ChainBuilt(O, rmap, chain, b', P + 1) && UsedBuilt(O, rmap, b', P + 1)
  {
    hide *;
    var b' := if P in rmap then TakeRow(O, rmap, b, P).value else b;
    UsedOneRow(O, rmap, b, P);
    if P in rmap && rmap[P].own.OwnSnap? {
      ChainOneRow(O, rmap, chain, b, P, nextId);
    } else {
      if P in rmap {
        SnapsSame(O, rmap, b, P);
      }
      ChainUntouched(O, rmap, chain, b, b', P);
    }
  }

  lemma {:induction false} RowsBuilt(O: nat, rmap: map<nat, Ent>, chain: seq<Snap>, b: Built, n: nat, nextId: nat)
    requires ChainBuilt(O, rmap, chain, b, 0) && UsedBuilt(O, rmap, b, 0) && TakeRows(O, rmap, b, n).Ok?
    requires ChainOrdered(chain, nextId) && Distinct(rmap) && SlotsFit(rmap)
    ensures ChainBuilt(O, rmap, chain, TakeRows(O, rmap, b, n).value, n)
    ensures UsedBuilt(O, rmap, TakeRows(O, rmap, b, n).value, n)
  {
    hide ChainBuilt, UsedBuilt, TakeRow, ChainOrdered, Distinct, SlotsFit;
    if n > 0 {
      RowsBuilt(O, rmap, chain, b, n - 1, nextId);
      OneRow(O, rmap, chain, TakeRows(O, rmap, b, n - 1).value, n - 1, nextId);
    }
  }

  lemma StartBuilt(O: nat, rmap: map<nat, Ent>, chain: seq<Snap>, nextId: nat)
    requires BareTable(chain, nextId)
    ensures ChainBuilt(O, rmap, chain, Built(Identity(O), chain, Home(O), {}), 0)
    ensures UsedBuilt(O, rmap, Built(Identity(O), chain, Home(O), {}), 0)
  {
    hide IndexOf;
  }

  lemma BuiltChain(O: nat, rmap: map<nat, Ent>, chain: seq<Snap>, b: Built, n: nat, nextId: nat)
    requires ChainBuilt(O, rmap, chain, b, n) && ChainOrdered(chain, nextId)
    ensures ChainOrdered(b.snaps, nextId) && Counted(b.snaps)
  {
    hide IndexOf;
  }

  lemma BuiltExceptions(st: St, chain: seq<Snap>, b: Built)
    requires ChainBuilt(st.O, st.rmap, chain, b, st.R) && st.snaps == b.snaps && InRange(st.R, st.rmap)
    ensures ExceptionsOwned(st) && OwnersExcept(st)
  {
    forall i, L | 0 <= i < |st.snaps| && L in st.snaps[i].exc
      ensures L < st.O && st.snaps[i].exc[L] < st.R
      ensures Owner(st, st.snaps[i].exc[L]) == Ent(L, OwnSnap(st.snaps[i].slot))
    {
      assert ExcBuilt(st.O, st.rmap, b.snaps[i], st.R);
    }
    forall P | 0 <= P < st.R && Owner(st, P).own.OwnSnap? ensures exists i: nat :: Excepted(st, i, P) {
      assert P in st.rmap && st.rmap[P] == Owner(st, P);
      var i := IndexOf(chain, st.rmap[P].own.slot);
      assert ExcBuilt(st.O, st.rmap, b.snaps[i], st.R);
      assert Excepted(st, i, P);
    }
  }

  lemma BuiltUsedCovers(st: St, b: Built)
    requires UsedBuilt(st.O, st.rmap, b, st.R) && st.used == b.used && InRange(st.R, st.rmap) && st.O < st.R
    ensures UsedCovers(st)
  {
  }

  lemma AcceptedInverse(R: nat, O: nat, rmap: map<nat, Ent>, chain: seq<Snap>, nextId: nat)
    requires 0 < O < R && InRange(R, rmap) && BareTable(chain, nextId) && Derive(R, O, rmap, chain, nextId).Ok?
    requires Distinct(rmap) && SlotsFit(rmap)
    ensures MapsInverse(Derive(R, O, rmap, chain, nextId).value)
  {
    var b0 := Built(Identity(O), chain, Home(O), {});
    var st := Derive(R, O, rmap, chain, nextId).value;
    AcceptedOriginIsBijection(R, O, rmap, chain, nextId);
    StartBuilt(O, rmap, chain, nextId);
    RowsBuilt(O, rmap, chain, b0, R, nextId);
    var b := TakeRows(O, rmap, b0, R).value;
    hide TakeRows, AllMoved, ChainBuilt, UsedBuilt, Distinct, SlotsFit, InRange, Counted, ChainOrdered, ExceptionsOwned;
    hide OwnersExcept, UsedCovers, Owner, RmapNormal;
    BuiltChain(O, rmap, chain, b, R, nextId);
    BuiltExceptions(st, chain, b);
    BuiltUsedCovers(st, b);
  }

  lemma InverseDistinct(st: St)
    requires MapsInverse(st) && InRange(st.R, st.rmap)
    ensures Distinct(st.rmap) && SlotsFit(st.rmap)
  {
    hide OriginCoherent, Counted, ExceptionsOwned, UsedCovers;
    forall P | P in st.rmap && st.rmap[P].own.OwnSnap?
      ensures st.rmap[P].own.slot < 256
      ensures forall Q :: Q in st.rmap && st.rmap[Q] == st.rmap[P] ==> Q == P
    {
      assert Owner(st, P) == st.rmap[P] && P < st.R;
      var i: nat :| Excepted(st, i, P);
      forall Q | Q in st.rmap && st.rmap[Q] == st.rmap[P] ensures Q == P {
        assert Owner(st, Q) == st.rmap[Q] && Q < st.R;
        var k: nat :| Excepted(st, k, Q);
      }
    }
  }

  lemma InverseNormal(st: St)
    ensures Coherent(st) <==> MapsInverse(st) && RmapNormal(st)
  {
    hide Shape, OriginCoherent, ChainOrdered, Counted, ExceptionsOwned, OwnersExcept, UsedCovers, RmapNormal;
  }

  /** The maps derive builds from a reverse map it accepts undo each other exactly when every
      snapshot owner fits a byte and no two rows are the same snapshot's copy of one origin
      row; and all is as the run-time protocol keeps it when no default is stored besides. */
  lemma AcceptedExactly(R: nat, O: nat, rmap: map<nat, Ent>, chain: seq<Snap>, nextId: nat)
    requires 0 < O < R && InRange(R, rmap) && BareTable(chain, nextId) && Derive(R, O, rmap, chain, nextId).Ok?
    ensures var st := Derive(R, O, rmap, chain, nextId).value;
      && (MapsInverse(st) <==> SlotsFit(rmap) && Distinct(rmap))
      && (Coherent(st) <==> RmapNormal(st) && SlotsFit(rmap) && Distinct(rmap))
  {
    hide *;
    var st := Derive(R, O, rmap, chain, nextId).value;
    DerivedMap(R, O, rmap, chain, nextId);
    InverseNormal(st);
    if SlotsFit(rmap) && Distinct(rmap) {
      AcceptedInverse(R, O, rmap, chain, nextId);
    }
    if MapsInverse(st) {
      InverseDistinct(st);
    }
  }

  lemma DerivedMap(R: nat, O: nat, rmap: map<nat, Ent>, chain: seq<Snap>, nextId: nat)
    requires Derive(R, O, rmap, chain, nextId).Ok?
    ensures var st := Derive(R, O, rmap, chain, nextId).value; st.rmap == rmap && st.R == R && st.O == O
  {
    hide TakeRows, AllMoved;
  }

  // ---- the header and the journal that a load goes by --------------------------------------------

  /** member k has this header in this place */
  predicate HeaderAt(imgs: seq<Image>, k: nat, copy: nat, gen: nat, b: Body) {
    k < |imgs| && copy < 2 && Rd(imgs[k], HdrAt(copy)) == Good(gen, b) && b.Hdr?
  }

  /** none of any member is newer */
  ghost predicate NewestHeader(imgs: seq<Image>, gen: nat) {
    forall k: nat, copy: nat, g: nat, b :: HeaderAt(imgs, k, copy, g, b) ==> g <= gen
  }

  lemma HeaderOffers(imgs: seq<Image>, k: nat, copy: nat, gen: nat, b: Body)
    requires HeaderAt(imgs, k, copy, gen, b)
    ensures Get(imgs, HdrAt(copy), Newest).Found? && gen <= Get(imgs, HdrAt(copy), Newest).gen
  {
    GetFinds(imgs, HdrAt(copy), Newest);
    assert Offers(imgs[k], HdrAt(copy), Newest, gen, b);
  }

  /** The header a load goes by is on some member, is the newest of all members and both places,
      says a share of 1 to 90 percent, and names itself. */
  lemma HeaderTaken(imgs: seq<Image>) returns (k: nat, copy: nat, gen: nat, b: Body)
    requires LoadHeader(imgs).Ok?
    ensures HeaderAt(imgs, k, copy, gen, b) && NewestHeader(imgs, gen)
    ensures var h := LoadHeader(imgs).value;
      && 1 <= b.pct <= 90 && b.ckpt == gen && h.pct == b.pct && h.R == b.R && h.O == b.O && h.ckpt == gen
      && h.jtail == b.jtail && h.pages == b.pages && h.nextId == if b.nextId == 0 then 1 else b.nextId
  {
    var r0, r1 := Get(imgs, HdrAt(0), Newest), Get(imgs, HdrAt(1), Newest);
    copy := if r0.Found? && !(r1.Found? && r1.gen > r0.gen) then 0 else 1;
    gen := if copy == 0 then r0.gen else r1.gen;
    GetFinds(imgs, HdrAt(copy), Exactly(gen));
    b := Get(imgs, HdrAt(copy), Exactly(gen)).body;
    hide Get;
    k :| k < |imgs| && Offers(imgs[k], HdrAt(copy), Exactly(gen), gen, b);
    forall k: nat, c: nat, g: nat, b | HeaderAt(imgs, k, c, g, b) ensures g <= gen {
      HeaderOffers(imgs, k, c, g, b);
    }
  }

  lemma FinishTakes(imgs: seq<Image>, h: Header, st: St, pmap: seq<PmapEnt>)
    requires Finish(imgs, h, st, pmap).Ok?
    ensures var core := Finish(imgs, h, st, pmap).value;
      && core.pct == h.pct && core.ckpt == h.ckpt && core.jtail == h.jtail && core.pmap == pmap && core.scrub
      && ReplayFrom(imgs, Live(st, {}), h.jtail).Ok?
      && core.jhead == ReplayFrom(imgs, Live(st, {}), h.jtail).value.jhead
  {
    hide ReplayFrom;
  }

  /** A load that succeeds goes by the newest header of all; that header is mdadm's, with the share
      it set, or one for just this many rows and pages, with an origin smaller than the array; and
      the journal ends where no member has the next record. */
  lemma LoadTakes(R: nat, imgs: seq<Image>) returns (k: nat, copy: nat, gen: nat, b: Body)
    requires Load(R, imgs).Ok?
    ensures HeaderAt(imgs, k, copy, gen, b) && NewestHeader(imgs, gen) && 1 <= b.pct <= 90 && b.ckpt == gen
    ensures if b.R == 0 then 0 < InitOrigin(R, b.pct) < R else b.R == R && b.pages == RmapPages(R) && 0 < b.O < R
    ensures var core := Load(R, imgs).value;
      && core.pct == b.pct && core.ckpt == gen && core.jtail == b.jtail <= core.jhead
      && forall k: nat, body :: k < |imgs| ==>
           !Offers(imgs[k], JrnlAt(core.jhead % JPAGES), Exactly(core.jhead), core.jhead, body)
  {
    k, copy, gen, b := HeaderTaken(imgs);
    var h := LoadHeader(imgs).value;
    hide LoadHeader, LoadMaps, Finish, ReplayFrom, InitOrigin, RmapPages, HeaderAt, NewestHeader, Offers;
    var O := if h.R == 0 then InitOrigin(R, h.pct) else h.O;
    assert Load(R, imgs) == LoadMaps(imgs, R, O, h);
    var st, pmap := SnapFound.MapsFinish(imgs, R, O, h);
    FinishTakes(imgs, h, st, pmap);
    ReplayStops(imgs, Live(st, {}), h.jtail);
  }

  /** the reverse map that is loaded names rows of the array only */
  lemma {:induction false} RmapInRange(imgs: seq<Image>, R: nat, c: nat, pmap: seq<PmapEnt>, n: nat)
    requires n <= |pmap| && LoadRmap(imgs, R, c, pmap, n).Ok?
    ensures InRange(R, LoadRmap(imgs, R, c, pmap, n).value)
  {
    if n > 0 {
      RmapInRange(imgs, R, c, pmap, n - 1);
      hide Get;
    }
  }

  /** Replay takes every record from the tail on that some member has, and stops only at one that
      none has: a record that is there and does not apply fails the load. */
  lemma {:induction false} ReplayStops(imgs: seq<Image>, v: Live, from: nat)
    requires ReplayFrom(imgs, v, from).Ok?
    ensures var q := ReplayFrom(imgs, v, from).value.jhead;
      && q >= from
      && (forall k: nat, body :: k < |imgs| ==> !Offers(imgs[k], JrnlAt(q % JPAGES), Exactly(q), q, body))
      && forall x: nat :: from <= x < q ==> Get(imgs, JrnlAt(x % JPAGES), Exactly(x)).Found?
    decreases |GensFrom(imgs, from)|
  {
    var a := JrnlAt(from % JPAGES);
    GetFinds(imgs, a, Exactly(from));
    match Get(imgs, a, Exactly(from)) {
      case Found(_, body) =>
        GensShrink(imgs, from);
        ReplayStops(imgs, ReplayOps(v, body.ops).value, from + 1);
      case _ =>
    }
    hide Get;
  }

  // ---- an input for each case ------------------------------------------------------------------------

  function NewSnap(id: nat, slot: nat): Snap {
    Snap(id, slot, 0, "", "", map[], 0)
  }

  /** four rows, one of them the origin's, and the snapshot of slot 0 with its own copy of it */
  function Copied(): St {
    St(4, 1, [1], map[0 := Ent(0, OwnSnap(0)), 1 := Ent(0, OwnOrigin)],
       [Snap(1, 0, 0, "", "", map[0 := 0], 1)], {0, 1}, 2)
  }

  lemma CopiedOwners()
    ensures Owner(Copied(), 0) == Ent(0, OwnSnap(0)) && Owner(Copied(), 1) == Ent(0, OwnOrigin)
    ensures forall P: nat :: P > 1 ==> Owner(Copied(), P) == Ent(0, OwnFree)
    ensures RmapNormal(Copied())
  {
  }

  lemma CopiedMaps()
    ensures Shape(Copied()) && OriginCoherent(Copied()) && UsedCovers(Copied())
  {
    CopiedOwners();
    hide Owner;
  }

  lemma CopiedChain()
    ensures ChainOrdered(Copied().snaps, Copied().nextId) && Counted(Copied().snaps)
    ensures ExceptionsOwned(Copied()) && OwnersExcept(Copied())
  {
    CopiedOwners();
    hide Owner;
    assert |map[0 := 0]| == 1;
    assert Excepted(Copied(), 0, 0);
  }

  lemma CopiedCoherent()
    ensures Coherent(Copied())
  {
    hide *;
    CopiedOwners();
    CopiedMaps();
    CopiedChain();
    CoherentJoin(Copied());
  }

  /** The record redirects a row that the snapshot has a copy of already. */
  lemma SecondCopy()
    ensures Coherent(Copied()) && OpValid(Copied(), Redirect(0, 1, 2))
    ensures Applicable(Copied(), Redirect(0, 1, 2)) && !Coherent(Apply(Copied(), Redirect(0, 1, 2)))
  {
    CopiedCoherent();
    assert OpValid(Copied(), Redirect(0, 1, 2)) && !Right(Copied(), Redirect(0, 1, 2));
    hide *;
    ValidExactly(Copied(), Redirect(0, 1, 2));
  }

  /** The record creates a snapshot with an id that is taken. */
  lemma SecondId()
    ensures Coherent(Copied()) && OpValid(Copied(), Create(1, 1, 0, "", ""))
    ensures Applicable(Copied(), Create(1, 1, 0, "", "")) && !Coherent(Apply(Copied(), Create(1, 1, 0, "", "")))
  {
    CopiedCoherent();
    assert OpValid(Copied(), Create(1, 1, 0, "", "")) && !Later(Copied().snaps, 1) by {
      assert Copied().snaps[0].id == 1;
    }
    assert !Right(Copied(), Create(1, 1, 0, "", ""));
    hide *;
    ValidExactly(Copied(), Create(1, 1, 0, "", ""));
  }

  /** derive over two rows that move no origin row */
  lemma DerivesTwo(rmap: map<nat, Ent>, e: Ent, f: Ent, s: nat)
    requires rmap == map[1 := e, 2 := f] && e.L == f.L == 0 && s < 256
    requires e.own.OwnSnap? && f.own.OwnSnap? && SlotArg(e.own.slot) == SlotArg(f.own.slot) == s
    ensures Derive(4, 1, rmap, [NewSnap(1, s)], 2).Ok?
  {
    var chain := [NewSnap(1, s)];
    var b := Built(Identity(1), chain, Home(1), {});
    assert TakeRows(1, rmap, b, 1) == Ok(b);
    var b1 := TakeRow(1, rmap, b, 1).value;
    assert TakeRow(1, rmap, b, 1).Ok? && |b1.snaps| == 1 && b1.snaps[0].slot == s;
    var b2 := TakeRow(1, rmap, b1, 2).value;
    assert TakeRow(1, rmap, b1, 2) == Ok(b2) && b2.moved == {};
    assert TakeRows(1, rmap, b, 3) == Ok(b2);
    assert TakeRows(1, rmap, b, 4) == Ok(b2);
  }

  lemma TableOfOne(s: nat)
    requires s < SLOTS
    ensures BareTable([NewSnap(1, s)], 2)
  {
  }

  /** Two rows are the same snapshot's copy of origin row 0. */
  lemma TwoRows()
    ensures var rmap := map[1 := Ent(0, OwnSnap(0)), 2 := Ent(0, OwnSnap(0))];
      && Derive(4, 1, rmap, [NewSnap(1, 0)], 2).Ok?
      && !MapsInverse(Derive(4, 1, rmap, [NewSnap(1, 0)], 2).value)
  {
    var rmap := map[1 := Ent(0, OwnSnap(0)), 2 := Ent(0, OwnSnap(0))];
    DerivesTwo(rmap, Ent(0, OwnSnap(0)), Ent(0, OwnSnap(0)), 0);
    assert InRange(4, rmap) && !Distinct(rmap) by { assert rmap[1] == rmap[2]; }
    TableOfOne(0);
    hide *;
    AcceptedExactly(4, 1, rmap, [NewSnap(1, 0)], 2);
  }

  /** An owner that is cut to a byte: the rows count as those of slot 0. */
  lemma WideOwner()
    ensures var rmap := map[1 := Ent(0, OwnSnap(0)), 2 := Ent(0, OwnSnap(256))];
      && Derive(4, 1, rmap, [NewSnap(1, 0)], 2).Ok? && Distinct(rmap)
      && !MapsInverse(Derive(4, 1, rmap, [NewSnap(1, 0)], 2).value)
  {
    var rmap := map[1 := Ent(0, OwnSnap(0)), 2 := Ent(0, OwnSnap(256))];
    DerivesTwo(rmap, Ent(0, OwnSnap(0)), Ent(0, OwnSnap(256)), 0);
    assert InRange(4, rmap) && Distinct(rmap);
    assert !SlotsFit(rmap) by { assert rmap[2].own.slot == 256; }
    TableOfOne(0);
    hide *;
    AcceptedExactly(4, 1, rmap, [NewSnap(1, 0)], 2);
  }
}
