/** The in-core maps as the code keeps them -- a sparse origin directory, the reverse map,
    bitmaps, the chain -- changed in place; each method is proved against the function of
    SnapState or SnapDerive that says what it does to the state. */
module SnapMaps {
  import opened SnapState
  import opened SnapDerive

  const LEAF: nat := 1024

  /** how many origin rows are away from home */
  function MovedCount(origin: seq<nat>, n: nat): nat
    requires n <= |origin|
  {
    if n == 0 then 0 else MovedCount(origin, n - 1) + (if origin[n - 1] != n - 1 then 1 else 0)
  }

  lemma {:induction false} MovedCountUpdate(origin: seq<nat>, L: nat, P: nat, n: nat)
    requires L < |origin| && n <= |origin|
    ensures MovedCount(origin[L := P], n) as int ==
      MovedCount(origin, n) as int
      + (if L < n then (if P != L then 1 else 0) - (if origin[L] != L then 1 else 0) else 0)
  {
    if n > 0 {
      MovedCountUpdate(origin, L, P, n - 1);
    }
  }

  lemma {:induction false} MovedCountHome(origin: seq<nat>, a: nat, b: nat)
    requires a <= b <= |origin| && forall L :: a <= L < b ==> origin[L] == L
    ensures MovedCount(origin, b) == MovedCount(origin, a)
  {
    if a < b {
      MovedCountHome(origin, a, b - 1);
    }
  }

  lemma {:induction false} TakeRowsFail(O: nat, rmap: map<nat, Ent>, b: Built, n: nat, m: nat)
    requires n <= m && TakeRows(O, rmap, b, n).Unclean?
    ensures TakeRows(O, rmap, b, m).Unclean?
  {
    if n < m {
      TakeRowsFail(O, rmap, b, n, m - 1);
    }
  }

  ghost function MovedRows(origin: seq<nat>, n: nat): set<nat>
    requires n <= |origin|
  {
    set L: nat | L < n && origin[L] != L
  }

  /** the count of rows away from home is the number of them */
  lemma {:induction false} MovedIsCount(origin: seq<nat>, n: nat)
    requires n <= |origin|
    ensures MovedCount(origin, n) == |MovedRows(origin, n)|
  {
    if n == 0 {
      assert MovedRows(origin, 0) == {};
    } else {
      MovedIsCount(origin, n - 1);
      var rest := MovedRows(origin, n - 1);
      if origin[n - 1] != n - 1 {
        assert MovedRows(origin, n) == rest + {n - 1};
      } else {
        assert MovedRows(origin, n) == rest;
      }
    }
  }

  predicate Whole(odir: map<nat, seq<nat>>) {
    forall d :: d in odir ==> |odir[d]| == LEAF
  }

  /** the origin map's entry for L: its leaf's, or the identity */
  function Lookup(odir: map<nat, seq<nat>>, L: nat): nat
    requires Whole(odir)
  {
    if L / LEAF in odir then odir[L / LEAF][L % LEAF] else L
  }

  ghost function Flat(odir: map<nat, seq<nat>>, O: nat): (s: seq<nat>)
    requires Whole(odir)
    ensures |s| == O && forall L :: 0 <= L < O ==> s[L] == Lookup(odir, L)
  {
    seq(O, L requires 0 <= L < O => Lookup(odir, L))
  }

  function Put(leaf: seq<nat>, i: nat, P: nat): seq<nat>
    requires i < |leaf|
  {
    leaf[i := P]
  }

  /** storing one entry of a leaf that is there changes that origin row and no other */
  lemma FlatUpdate(odir: map<nat, seq<nat>>, O: nat, L: nat, P: nat)
    requires Whole(odir) && L < O && L / LEAF in odir
    ensures Whole(odir[L / LEAF := Put(odir[L / LEAF], L % LEAF, P)])
    ensures Flat(odir[L / LEAF := Put(odir[L / LEAF], L % LEAF, P)], O) == Flat(odir, O)[L := P]
  {
    var odir' := odir[L / LEAF := Put(odir[L / LEAF], L % LEAF, P)];
    forall K | 0 <= K < O ensures Lookup(odir', K) == if K == L then P else Lookup(odir, K) {
      assert K == K / LEAF * LEAF + K % LEAF && L == L / LEAF * LEAF + L % LEAF;
    }
  }

  /** a new leaf holding the identity changes nothing */
  lemma FlatFresh(odir: map<nat, seq<nat>>, O: nat, d: nat, leaf: seq<nat>)
    requires Whole(odir) && d !in odir && |leaf| == LEAF && forall k :: 0 <= k < LEAF ==> leaf[k] == d * LEAF + k
    ensures Whole(odir[d := leaf]) && Flat(odir[d := leaf], O) == Flat(odir, O)
  {
    forall K | 0 <= K < O ensures Lookup(odir[d := leaf], K) == Lookup(odir, K) {
      assert K == K / LEAF * LEAF + K % LEAF;
    }
  }

  ghost predicate DistinctSlots(snaps: seq<Snap>) {
    forall i, j :: 0 <= i < j < |snaps| ==> snaps[i].slot != snaps[j].slot
  }

  function MovedAfter(e: Ent, moved: set<nat>): set<nat> {
    if e.own.OwnOrigin? then moved + {e.L} else moved
  }

  function Min(a: nat, b: nat): nat {
    if a <= b then a else b
  }

  class Maps {
    const R: nat
    const O: nat
    /** leaf number -> LEAF entries of the origin map; no leaf = identity there */
    var odir: map<nat, seq<nat>>
    var rmap: map<nat, Ent>
    var rdirty: set<nat>
    var used: set<nat>
    var cursor: nat
    var redirected: int
    var snaps: seq<Snap>
    var slots: set<nat>
    var nextId: nat

    /** the maps before rk_sn_derive: what the checkpoint's table and reverse map
        said, and nothing derived from them yet */
    constructor (R: nat, O: nat, rmap: map<nat, Ent>, snaps: seq<Snap>, nextId: nat)
      ensures this.R == R && this.O == O && this.rmap == rmap && this.snaps == snaps && this.nextId == nextId
      ensures odir == map[] && used == {} && rdirty == {} && cursor == 0
      ensures slots == set g | g in snaps :: g.slot
    {
      this.R, this.O, this.rmap, this.snaps, this.nextId := R, O, rmap, snaps, nextId;
      odir, used, rdirty, cursor, redirected := map[], {}, {}, 0, 0;
      slots := set g | g in snaps :: g.slot;
    }

    predicate LeavesWhole()
      reads this`odir
    {
      Whole(odir)
    }

    /** rk_sn_origin */
    function Origin(L: nat): nat
      requires LeavesWhole()
      reads this`odir
    {
      Lookup(odir, L)
    }

    ghost function OriginMap(): seq<nat>
      requires LeavesWhole()
      reads this`odir
    {
      Flat(odir, O)
    }

    ghost function View(): St
      requires LeavesWhole()
      reads this
    {
      St(R, O, OriginMap(), rmap, snaps, used, nextId)
    }

    /** the counters and the slot bitmap agree with the maps */
    ghost predicate Valid()
      reads this
    {
      && LeavesWhole()
      && redirected == MovedCount(OriginMap(), O)
      && DistinctSlots(snaps)
      && (forall s :: s in slots <==> IndexOf(snaps, s) < |snaps|)
    }

    /** rk_sn_rmap_set */
    method StoreOwner(P: nat, e: Ent)
      modifies this`rmap, this`rdirty
      ensures rmap == RmapSet(O, old(rmap), P, e)
      ensures rdirty == old(rdirty) + {P / RMAP_PER_PAGE}
    {
      var L := if e.own.OwnFree? then 0 else e.L;
      if Ent(L, e.own) == Default(O, P) {
        rmap := rmap - {P};
      } else {
        rmap := rmap[P := Ent(L, e.own)];
      }
      rdirty := rdirty + {P / RMAP_PER_PAGE};
    }

    /** rk_sn_leaf: the leaf holding L, filled with the identity when it is new */
    method TakeLeaf(L: nat)
      requires LeavesWhole()
      modifies this`odir
      ensures LeavesWhole() && L / LEAF in odir && OriginMap() == old(OriginMap())
    {
      if L / LEAF !in odir {
        var leaf: seq<nat> := [];
        for i := 0 to LEAF
          invariant |leaf| == i && forall k :: 0 <= k < i ==> leaf[k] == L / LEAF * LEAF + k
        {
          leaf := leaf + [L / LEAF * LEAF + i];
        }
        FlatFresh(odir, O, L / LEAF, leaf);
        odir := odir[L / LEAF := leaf];
      }
    }

    method SetOrigin(L: nat, P: nat)
      requires LeavesWhole() && L < O
      modifies this`odir
      ensures LeavesWhole() && OriginMap() == old(OriginMap())[L := P]
    {
      TakeLeaf(L);
      FlatUpdate(odir, O, L, P);
      odir := odir[L / LEAF := Put(odir[L / LEAF], L % LEAF, P)];
    }

    /** rk_snap_slot */
    method FindSlot(slot: nat) returns (i: nat)
      ensures i == IndexOf(snaps, slot)
    {
      i := 0;
      while i < |snaps| && snaps[i].slot != slot
        invariant i <= |snaps| && forall k :: 0 <= k < i ==> snaps[k].slot != slot
      {
        i := i + 1;
      }
    }

    /** rk_alloc_row: the first free row from the cursor on, else the first of all; it is
        taken.  false: no row is free. */
    method AllocRow() returns (ok: bool, p: nat)
      modifies this`used, this`cursor
      ensures ok <==> exists P: nat :: P < R && P !in old(used)
      ensures ok ==> p < R && p !in old(used) && used == old(used) + {p} && cursor == p + 1
      ensures ok ==> forall P: nat :: P < R && P !in old(used) && P < p ==>
        P < old(cursor) && (old(cursor) <= p)
      ensures ok && p < old(cursor) ==> forall P: nat :: old(cursor) <= P < R ==> P in old(used)
      ensures !ok ==> used == old(used) && cursor == old(cursor)
    {
      p := cursor;
      while p < R && p in used
        invariant cursor <= p && forall P: nat :: cursor <= P < p && P < R ==> P in used
      {
        p := p + 1;
      }
      if p >= R {
        p := 0;
        while p < R && p in used
          invariant p <= R && forall P: nat :: P < p ==> P in used
        {
          p := p + 1;
        }
      }
      if p >= R {
        return false, p;
      }
      used := used + {p};
      cursor := p + 1;
      return true, p;
    }

    /** rk_snap_apply */
    method ApplyOp(op: Op)
      requires Valid() && Applicable(View(), op)
      modifies this
      ensures Valid() && View() == Apply(old(View()), op)
      ensures rdirty == old(rdirty) + DirtyPages(old(View()), op)
      ensures cursor == old(cursor)
    {
      hide Flat, Lookup, MovedCount, IndexOf, DistinctSlots, ApplyRedirect, ApplyDestroy;
      match op {
        case Redirect(L, oldP, newP) => RedirectRow(L, oldP, newP);
        case Create(slot, id, ctime, name, attrs) =>
          snaps := snaps + [Snap(id, slot, ctime, name, attrs, map[], 0)];
          slots := slots + {slot};
          if id >= nextId {
            nextId := id + 1;
          }
          AppendedSlots(old(snaps), snaps[|old(snaps)|]);
        case Destroy(slot) => DestroySnap(slot);
        case Rename(slot, name) =>
          var i := FindSlot(slot);
          snaps := snaps[i := snaps[i].(name := name)];
          SameSlotsAll(old(snaps), snaps);
        case Set(slot, attrs) =>
          var i := FindSlot(slot);
          snaps := snaps[i := snaps[i].(attrs := attrs)];
          SameSlotsAll(old(snaps), snaps);
      }
    }

    /** the old row becomes the newest snapshot's, the new one the origin's */
    method HandOver(L: nat, oldP: nat, newP: nat)
      requires snaps != []
      modifies this`snaps, this`rmap, this`rdirty
      ensures var n := |old(snaps)| - 1; var g := old(snaps)[n];
        && snaps == old(snaps)[n := g.(exc := g.exc[L := oldP], nexc := g.nexc + 1)]
        && rmap == RmapSet(O, RmapSet(O, old(rmap), oldP, Ent(L, OwnSnap(g.slot))), newP, Ent(L, OwnOrigin))
      ensures rdirty == old(rdirty) + {oldP / RMAP_PER_PAGE, newP / RMAP_PER_PAGE}
    {
      var n := |snaps| - 1;
      var g := snaps[n];
      snaps := snaps[n := g.(exc := g.exc[L := oldP], nexc := g.nexc + 1)];
      StoreOwner(oldP, Ent(L, OwnSnap(g.slot)));
      StoreOwner(newP, Ent(L, OwnOrigin));
    }

    method RedirectRow(L: nat, oldP: nat, newP: nat)
      requires Valid() && snaps != [] && L < O
      modifies this
      ensures Valid() && View() == ApplyRedirect(old(View()), L, oldP, newP)
      ensures rdirty == old(rdirty) + {oldP / RMAP_PER_PAGE, newP / RMAP_PER_PAGE}
      ensures cursor == old(cursor)
    {
      hide MovedCount, IndexOf, RmapSet, DistinctSlots;
      ghost var before := OriginMap();
      var was := Origin(L);
      assert before[L] == was;
      hide Flat, Lookup;
      HandOver(L, oldP, newP);
      SetOrigin(L, newP);
      redirected := redirected + (if newP != L then 1 else 0) - (if was != L then 1 else 0);
      used := used + {newP};
      MovedCountUpdate(before, L, newP, O);
      SameSlotsAll(old(snaps), snaps);
    }

    /** rk_sn_derive: origin, exceptions and used rows from the reverse map that was
        loaded.  False: -EUCLEAN, exactly when Derive says so. */
    method Rebuild() returns (ok: bool)
      requires odir == map[] && used == {} && InRange(R, rmap) && O <= R
      modifies this`odir, this`used, this`snaps, this`redirected
      ensures ok <==> SnapDerive.Derive(R, O, rmap, old(snaps), nextId).Ok?
      ensures ok ==> LeavesWhole() && redirected == MovedCount(OriginMap(), O)
      ensures ok ==> LeavesWhole() && View() == SnapDerive.Derive(R, O, rmap, old(snaps), nextId).value
    {
      ghost var start := Built(SnapDerive.Identity(O), snaps, Home(O), {});
      var moved: set<nat> := {};
      for P := 0 to O
        invariant used == Home(P) && odir == map[] && snaps == old(snaps)
      {
        used := used + {P};
      }
      assert OriginMap() == SnapDerive.Identity(O);
      for P := 0 to R
        invariant LeavesWhole()
        invariant TakeRows(O, rmap, start, P) == Ok(Built(OriginMap(), snaps, used, moved))
      {
        if P in rmap {
          var taken := TakeOwned(P, moved);
          if !taken {
            TakeRowsFail(O, rmap, start, P + 1, R);
            return false;
          }
          moved := MovedAfter(rmap[P], moved);
        }
      }
      for P := 0 to O
        invariant forall Q :: Q in rmap && Q < P ==> Q in moved
      {
        if P in rmap && P !in moved {
          return false;
        }
      }
      CountMoved();
      return true;
    }

    /** one row of the walk; false: it does not fit */
    method TakeOwned(P: nat, moved: set<nat>) returns (ok: bool)
      requires LeavesWhole() && P in rmap
      modifies this`odir, this`used, this`snaps
      ensures LeavesWhole()
      ensures var r := TakeRow(O, rmap, Built(old(OriginMap()), old(snaps), old(used), moved), P);
        && (ok <==> r.Ok?)
        && (ok ==> r == Ok(Built(OriginMap(), snaps, used, MovedAfter(rmap[P], moved))))
    {
      hide Flat, Lookup;
      var L := rmap[P].L;
      match rmap[P].own {
        case OwnFree =>
          used := used - {P};
        case OwnOrigin =>
          if L >= O || L in moved || L !in rmap {
            return false;
          }
          SetOrigin(L, P);
          used := used + {P};
        case OwnSnap(slot) =>
          var i := FindSlot(SlotArg(slot));
          if i == |snaps| || L >= O {
            return false;
          }
          var g := snaps[i];
          snaps := snaps[i := g.(exc := g.exc[L := P], nexc := g.nexc + 1)];
          used := used + {P};
      }
      return true;
    }

    /** the count of moved origin rows, leaf by leaf */
    method CountMoved()
      requires LeavesWhole()
      modifies this`redirected
      ensures redirected == MovedCount(OriginMap(), O)
    {
      ghost var origin := OriginMap();
      var ndir := (O + LEAF - 1) / LEAF;
      redirected := 0;
      for d := 0 to ndir
        invariant redirected == MovedCount(origin, Min(O, d * LEAF))
      {
        var end := Min(O, (d + 1) * LEAF);
        if d in odir {
          for L := d * LEAF to end
            invariant redirected == MovedCount(origin, L)
          {
            assert L / LEAF == d && L % LEAF == L - d * LEAF;
            redirected := redirected + if odir[d][L % LEAF] != L then 1 else 0;
          }
        } else {
          assert forall L :: d * LEAF <= L < end ==> L / LEAF == d;
          MovedCountHome(origin, d * LEAF, end);
        }
      }
    }

    method DestroySnap(slot: nat)
      requires Valid() && IndexOf(snaps, slot) < |snaps|
      modifies this
      ensures Valid() && View() == ApplyDestroy(old(View()), slot)
      ensures rdirty == old(rdirty) + DirtyPages(old(View()), Destroy(slot))
      ensures cursor == old(cursor)
    {
      hide Flat, Lookup, MovedCount, RmapSet, IndexOf, DistinctSlots;
      ghost var st := View();
      var i := FindSlot(slot);
      ghost var exc := snaps[i].exc;
      for L := 0 to O
        invariant LeavesWhole() && OriginMap() == st.origin
        invariant View() == DropRows(st, i, L)
        invariant rdirty == old(rdirty) + DropPages(exc, L)
        invariant cursor == old(cursor) && redirected == old(redirected) && slots == old(slots)
        invariant |snaps| == |old(snaps)| && forall k :: 0 <= k < |snaps| ==> snaps[k].slot == old(snaps)[k].slot
      {
        if L in snaps[i].exc {
          var P := snaps[i].exc[L];
          if i > 0 && L !in snaps[i - 1].exc {
            var o := snaps[i - 1];
            snaps := snaps[i - 1 := o.(exc := o.exc[L := P], nexc := o.nexc + 1)];
            StoreOwner(P, Ent(L, OwnSnap(o.slot)));
          } else {
            StoreOwner(P, Ent(0, OwnFree));
            used := used - {P};
          }
        }
      }
      ghost var all := snaps;
      snaps := snaps[..i] + snaps[i + 1..];
      slots := slots - {slot};
      SameSlotsAll(old(snaps), all);
      RemovedSlots(all, i);
    }
  }

  lemma AppendedSlot(snaps: seq<Snap>, g: Snap, slot: nat)
    ensures IndexOf(snaps + [g], slot) < |snaps| + 1 <==> slot == g.slot || IndexOf(snaps, slot) < |snaps|
  {
    var all := snaps + [g];
    var i, j := IndexOf(all, slot), IndexOf(snaps, slot);
    assert forall k :: 0 <= k < |snaps| ==> all[k] == snaps[k];
    assert all[|snaps|] == g;
  }

  lemma AppendedSlots(snaps: seq<Snap>, g: Snap)
    requires DistinctSlots(snaps) && IndexOf(snaps, g.slot) == |snaps|
    ensures DistinctSlots(snaps + [g])
    ensures forall s :: IndexOf(snaps + [g], s) < |snaps| + 1 <==> s == g.slot || IndexOf(snaps, s) < |snaps|
  {
    forall s {
      AppendedSlot(snaps, g, s);
    }
  }

  lemma RemovedSlots(snaps: seq<Snap>, i: nat)
    requires i < |snaps| && DistinctSlots(snaps)
    ensures DistinctSlots(snaps[..i] + snaps[i + 1..])
    ensures forall s :: IndexOf(snaps[..i] + snaps[i + 1..], s) < |snaps| - 1 <==>
      s != snaps[i].slot && IndexOf(snaps, s) < |snaps|
  {
    assert DistinctSlots(snaps[..i] + snaps[i + 1..]) by {
      hide IndexOf;
    }
    var rest := snaps[..i] + snaps[i + 1..];
    assert |rest| == |snaps| - 1;
    hide DistinctSlots, IndexOf;
    forall s ensures IndexOf(rest, s) < |rest| <==> s != snaps[i].slot && IndexOf(snaps, s) < |snaps| {
      RemovedSlot(snaps, i, s);
    }
  }

  lemma RemovedSlot(snaps: seq<Snap>, i: nat, slot: nat)
    requires i < |snaps| && DistinctSlots(snaps)
    ensures var rest := snaps[..i] + snaps[i + 1..];
      IndexOf(rest, slot) < |rest| <==> slot != snaps[i].slot && IndexOf(snaps, slot) < |snaps|
  {
    var rest := snaps[..i] + snaps[i + 1..];
    var a, b := IndexOf(rest, slot), IndexOf(snaps, slot);
    assert forall k :: 0 <= k < i ==> rest[k] == snaps[k];
    assert forall k :: i <= k < |rest| ==> rest[k] == snaps[k + 1];
    assert forall k :: i < k < |snaps| ==> snaps[k] == rest[k - 1];
  }

  lemma SameSlotsAll(a: seq<Snap>, b: seq<Snap>)
    requires |a| == |b| && forall i :: 0 <= i < |a| ==> a[i].slot == b[i].slot
    ensures forall s :: IndexOf(a, s) == IndexOf(b, s)
    ensures DistinctSlots(a) ==> DistinctSlots(b)
  {
    forall s {
      SameSlots(a, b, s);
    }
  }
}
