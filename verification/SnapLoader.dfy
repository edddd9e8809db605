/** rk_sn_load as the code runs it (km/raid_km-snapmeta.c:225-267, 845-1229): loops over the
    members, the pages and the ring, each proved against the function of SnapRegion or
    SnapLoad that says what it finds. */
module SnapLoader {
  import opened SnapState
  import opened SnapDerive
  import opened SnapRegion
  import opened SnapLoad
  import opened SnapMaps

  /** rk_sn_get */
  method GetPage(imgs: seq<Image>, a: Addr, want: Want) returns (got: Got)
    ensures got == Get(imgs, a, want)
  {
    var best, bad := Zeroes, false;
    var i := 0;
    while i < |imgs|
      invariant i <= |imgs| && GetFrom(imgs, a, want, i, best, bad) == Get(imgs, a, want)
      invariant want.Exactly? ==> !best.Found?
    {
      match Rd(imgs[i], a) {
        case Zero =>
        case Bad => bad := true;
        case Good(gen, body) =>
          if !OfKind(a, body) || !Wanted(want, gen) {
            bad := true;
          } else {
            if !best.Found? || gen > best.gen {
              best := Found(gen, body);
            }
            if want.Exactly? {
              return best;
            }
          }
      }
      i := i + 1;
    }
    return if best.Found? then best else if bad then Rejected else Zeroes;
  }

  /** rk_sn_load_hdr */
  method GetHeader(imgs: seq<Image>) returns (r: Result<Header>)
    ensures r == LoadHeader(imgs)
  {
    var which, best := -1, 0;
    var r0 := GetPage(imgs, HdrAt(0), Newest);
    if r0.Found? {
      which, best := 0, r0.gen;
    }
    var r1 := GetPage(imgs, HdrAt(1), Newest);
    if r1.Found? && (which < 0 || r1.gen > best) {
      which, best := 1, r1.gen;
    }
    if which < 0 {
      return Unclean;
    }
    var got := GetPage(imgs, HdrAt(which), Exactly(best));
    match got {
      case Zeroes => return Unclean;
      case Rejected => return Unclean;
      case Found(gen, body) =>
        if !body.Hdr? || body.pct < 1 || body.pct > 90 || body.ckpt != gen {
          return Unclean;
        }
        var nextId := if body.nextId == 0 then 1 else body.nextId;
        return Ok(Header(body.pct, body.R, body.O, body.ckpt, body.jtail, nextId, body.pages));
    }
  }

  /** the chain is in id order, oldest first: before the first younger one */
  method Insert(chain: seq<Snap>, g: Snap) returns (longer: seq<Snap>)
    ensures longer == InsertById(chain, g)
  {
    var i := 0;
    while i < |chain| && chain[i].id <= g.id
      invariant i <= |chain|
      invariant InsertById(chain, g) == chain[..i] + InsertById(chain[i..], g)
    {
      InsertPast(chain, g, i);
      i := i + 1;
    }
    longer := chain[..i] + [g] + chain[i..];
    assert InsertById(chain[i..], g) == [g] + chain[i..];
  }

  lemma InsertPast(chain: seq<Snap>, g: Snap, i: nat)
    requires i < |chain| && chain[i].id <= g.id
    ensures chain[..i] + InsertById(chain[i..], g) == chain[..i + 1] + InsertById(chain[i + 1..], g)
  {
    assert chain[i..][1..] == chain[i + 1..];
    assert chain[..i] + [chain[i]] == chain[..i + 1];
    assert InsertById(chain[i..], g) == [chain[i]] + InsertById(chain[i + 1..], g);
    hide InsertById;
  }

  lemma {:induction false} TableFails(imgs: seq<Image>, c: nat, n: nat, m: nat)
    requires n <= m && LoadTable(imgs, c, n).Unclean?
    ensures LoadTable(imgs, c, m).Unclean?
  {
    if n < m {
      TableFails(imgs, c, n, m - 1);
    }
  }

  lemma {:induction false} PmapFails(imgs: seq<Image>, c: nat, n: nat, m: nat)
    requires n <= m && LoadPmap(imgs, c, n).Unclean?
    ensures LoadPmap(imgs, c, m).Unclean?
  {
    if n < m {
      PmapFails(imgs, c, n, m - 1);
    }
  }

  lemma {:induction false} RmapFails(imgs: seq<Image>, R: nat, c: nat, pmap: seq<PmapEnt>, n: nat, m: nat)
    requires n <= m <= |pmap| && LoadRmap(imgs, R, c, pmap, n).Unclean?
    ensures LoadRmap(imgs, R, c, pmap, m).Unclean?
  {
    if n < m {
      RmapFails(imgs, R, c, pmap, n, m - 1);
    }
  }

  /** rk_sn_load_table: the entries of every page, then the chain slot by slot */
  method GetTable(imgs: seq<Image>, c: nat) returns (ok: bool, chain: seq<Snap>)
    ensures ok <==> LoadTable(imgs, c, TBL_PAGES).Ok?
    ensures ok ==> chain == ChainOf(LoadTable(imgs, c, TBL_PAGES).value, SLOTS)
  {
    var ents: map<nat, Tent> := map[];
    chain := [];
    for p := 0 to TBL_PAGES
      invariant LoadTable(imgs, c, p) == Ok(ents)
    {
      var got := GetPage(imgs, TblAt(c % 2, p), Exactly(c));
      if !got.Found? || !got.body.Tbl? {
        TableFails(imgs, c, p + 1, TBL_PAGES);
        return false, [];
      }
      ents := ents + got.body.ents;
    }
    for slot := 0 to SLOTS
      invariant chain == ChainOf(ents, slot)
    {
      if slot in ents {
        chain := Insert(chain, FromEntry(slot, ents[slot]));
      }
    }
    ok := true;
  }

  /** rk_sn_load_maps, first loop */
  method GetPmap(imgs: seq<Image>, c: nat, pages: nat) returns (ok: bool, bytes: seq<PmapEnt>)
    ensures ok <==> LoadPmap(imgs, c, pages).Ok?
    ensures ok ==> bytes == LoadPmap(imgs, c, pages).value
  {
    bytes := [];
    for p := 0 to pages
      invariant LoadPmap(imgs, c, p) == Ok(bytes)
    {
      var got := GetPage(imgs, PmapAt(c % 2, p), Exactly(c));
      if !got.Found? || !got.body.Pmap? {
        PmapFails(imgs, c, p + 1, pages);
        return false, [];
      }
      bytes := bytes + got.body.bytes;
    }
    ok := true;
  }

  /** ... second loop: the touched pages, each the newest copy no later than c */
  method GetRmap(imgs: seq<Image>, R: nat, c: nat, pmap: seq<PmapEnt>) returns (ok: bool, rmap: map<nat, Ent>)
    ensures ok <==> LoadRmap(imgs, R, c, pmap, |pmap|).Ok?
    ensures ok ==> rmap == LoadRmap(imgs, R, c, pmap, |pmap|).value
  {
    rmap := map[];
    for p := 0 to |pmap|
      invariant LoadRmap(imgs, R, c, pmap, p) == Ok(rmap)
    {
      if pmap[p].Touched? {
        var got := GetPage(imgs, RmapAt(pmap[p].slot, p), UpTo(c));
        if !got.Found? || !got.body.Rmap? || exists P :: P in got.body.rows && P >= R {
          RmapFails(imgs, R, c, pmap, p + 1, |pmap|);
          return false, map[];
        }
        rmap := rmap + got.body.rows;
      }
    }
    ok := true;
  }

  // ---- the chain's slots ----------------------------------------------------------------

  ghost predicate SlotsBelow(chain: seq<Snap>, n: nat) {
    forall i :: 0 <= i < |chain| ==> chain[i].slot < n
  }

  lemma {:induction false} InsertSlots(chain: seq<Snap>, g: Snap)
    requires DistinctSlots(chain) && SlotsBelow(chain, g.slot)
    ensures DistinctSlots(InsertById(chain, g)) && SlotsBelow(InsertById(chain, g), g.slot + 1)
    ensures forall x :: x in InsertById(chain, g) <==> x in chain || x == g
  {
    if chain != [] && chain[0].id <= g.id {
      InsertSlots(chain[1..], g);
      var rest := InsertById(chain[1..], g);
      assert chain == [chain[0]] + chain[1..];
      forall i | 0 <= i < |rest| ensures rest[i].slot != chain[0].slot {
        assert rest[i] in rest;
      }
    }
  }

  lemma {:induction false} ChainSlots(ents: map<nat, Tent>, n: nat)
    ensures DistinctSlots(ChainOf(ents, n)) && SlotsBelow(ChainOf(ents, n), n)
  {
    if n > 0 {
      ChainSlots(ents, n - 1);
      if n - 1 in ents {
        InsertSlots(ChainOf(ents, n - 1), FromEntry(n - 1, ents[n - 1]));
      }
    }
  }

  /** a row taken keeps the chain's slots */
  lemma {:induction false} TakenSlots(O: nat, rmap: map<nat, Ent>, b: Built, n: nat)
    requires TakeRows(O, rmap, b, n).Ok?
    ensures var t := TakeRows(O, rmap, b, n).value;
      |t.snaps| == |b.snaps| && forall i :: 0 <= i < |b.snaps| ==> t.snaps[i].slot == b.snaps[i].slot
  {
    if n > 0 {
      TakenSlots(O, rmap, b, n - 1);
    }
  }

  lemma SlotsMatch(snaps: seq<Snap>)
    ensures forall s: nat :: s in (set g | g in snaps :: g.slot) <==> IndexOf(snaps, s) < |snaps|
  {
    forall s: nat
      ensures s in (set g | g in snaps :: g.slot) <==> IndexOf(snaps, s) < |snaps|
    {
      var i := IndexOf(snaps, s);
      if i < |snaps| {
        assert snaps[i] in snaps;
      }
    }
  }

  lemma RebuiltSlots(m: Maps, chain: seq<Snap>)
    requires DistinctSlots(chain)
    requires Derive(m.R, m.O, m.rmap, chain, m.nextId).Ok?
    ensures var st := Derive(m.R, m.O, m.rmap, chain, m.nextId).value;
      DistinctSlots(st.snaps) && forall s: nat :: s in (set g | g in chain :: g.slot) <==> IndexOf(st.snaps, s) < |st.snaps|
  {
    TakenSlots(m.O, m.rmap, Built(SnapDerive.Identity(m.O), chain, Home(m.O), {}), m.R);
    var st := Derive(m.R, m.O, m.rmap, chain, m.nextId).value;
    SameSlotsAll(chain, st.snaps);
    SlotsMatch(chain);
  }

  // ---- replay ------------------------------------------------------------------------------

  /** rk_sn_op_valid */
  method CheckOp(m: Maps, op: Op) returns (ok: bool)
    requires m.Valid()
    ensures ok <==> OpValid(m.View(), op)
  {
    match op {
      case Redirect(L, oldP, newP) =>
        ok := m.snaps != [] && L < m.O && newP < m.R && oldP < m.R && m.Origin(L) == oldP && newP !in m.used;
      case Create(slot, _, _, _, _) => ok := slot < SLOTS && slot !in m.slots;
      case Destroy(slot) =>
        var i := m.FindSlot(slot);
        ok := slot < SLOTS && i < |m.snaps|;
      case Rename(slot, _) =>
        var i := m.FindSlot(slot);
        ok := slot < SLOTS && i < |m.snaps|;
      case Set(slot, _) =>
        var i := m.FindSlot(slot);
        ok := slot < SLOTS && i < |m.snaps|;
    }
  }

  ghost function LiveOf(m: Maps): Live
    requires m.LeavesWhole()
    reads m
  {
    Live(m.View(), m.rdirty)
  }

  /** one record's ops, each checked and then applied */
  method ReplayRecord(m: Maps, ops: seq<Op>) returns (ok: bool)
    requires m.Valid()
    modifies m
    ensures m.Valid()
    ensures ok <==> ReplayOps(old(LiveOf(m)), ops).Ok?
    ensures ok ==> ReplayOps(old(LiveOf(m)), ops) == Ok(LiveOf(m))
  {
    var i := 0;
    while i < |ops|
      invariant i <= |ops| && m.Valid()
      invariant ReplayOps(LiveOf(m), ops[i..]) == ReplayOps(old(LiveOf(m)), ops)
    {
      hide Flat, Lookup, MovedCount, IndexOf, DistinctSlots;
      var valid := CheckOp(m, ops[i]);
      ReplayStep(LiveOf(m), ops[i..]);
      if !valid {
        return false;
      }
      assert ops[i..][0] == ops[i] && ops[i..][1..] == ops[i + 1..];
      m.ApplyOp(ops[i]);
      i := i + 1;
    }
    ok := true;
  }

  lemma ReplayStep(v: Live, ops: seq<Op>)
    requires ops != []
    ensures !OpValid(v.st, ops[0]) ==> ReplayOps(v, ops).Unclean?
    ensures OpValid(v.st, ops[0]) ==>
      (Applicable(v.st, ops[0])
       && ReplayOps(v, ops) == ReplayOps(Live(Apply(v.st, ops[0]), v.rdirty + DirtyPages(v.st, ops[0])), ops[1..]))
  {
    hide Apply, DirtyPages, IndexOf;
  }

  /** rk_sn_replay */
  method Replay(imgs: seq<Image>, m: Maps, jtail: nat) returns (ok: bool, seqno: nat)
    requires m.Valid()
    modifies m
    ensures m.Valid()
    ensures ok <==> ReplayFrom(imgs, old(LiveOf(m)), jtail).Ok?
    ensures ok ==> ReplayFrom(imgs, old(LiveOf(m)), jtail) == Ok(Replayed(LiveOf(m), seqno))
  {
    seqno := jtail;
    ghost var goal := ReplayFrom(imgs, LiveOf(m), jtail);
    while true
      invariant m.Valid()
      invariant ReplayFrom(imgs, LiveOf(m), seqno) == goal
      decreases |GensFrom(imgs, seqno)|
    {
      hide Flat, Lookup, MovedCount, IndexOf, DistinctSlots, GensFrom, Get;
      var got := GetPage(imgs, JrnlAt(seqno % JPAGES), Exactly(seqno));
      if !got.Found? {
        return true, seqno;
      }
      GensShrink(imgs, seqno);
      if !got.body.Jrnl? {
        return false, seqno;
      }
      ok := ReplayRecord(m, got.body.ops);
      if !ok {
        return false, seqno;
      }
      seqno := seqno + 1;
    }
  }

  // ---- the whole load ---------------------------------------------------------------------------

  /** what a load leaves beside the maps */
  datatype Found = Missing | Loaded(maps: Maps, pct: nat, pmap: seq<PmapEnt>, ckpt: nat, jtail: nat, jhead: nat)

  ghost predicate IsCore(f: Found, core: Core)
    requires f.Loaded?
    reads f.maps
  {
    && f.maps.Valid()
    && core == Core(f.maps.View(), f.pct, f.pmap, f.maps.rdirty, f.ckpt, f.jtail, f.jhead, true)
  }

  lemma RmapRange(imgs: seq<Image>, R: nat, c: nat, pmap: seq<PmapEnt>, n: nat)
    requires n <= |pmap| && LoadRmap(imgs, R, c, pmap, n).Ok?
    ensures InRange(R, LoadRmap(imgs, R, c, pmap, n).value)
  {
  }

  /** derive, then replay */
  method FinishLoad(imgs: seq<Image>, R: nat, O: nat, h: Header, rmap: map<nat, Ent>, chain: seq<Snap>,
          pmap: seq<PmapEnt>)
    returns (f: Found)
    requires InRange(R, rmap) && O <= R && DistinctSlots(chain)
    ensures f.Loaded? <==>
      (Derive(R, O, rmap, chain, h.nextId).Ok? && Finish(imgs, h, Derive(R, O, rmap, chain, h.nextId).value, pmap).Ok?)
    ensures f.Loaded? ==>
      (fresh(f.maps) && IsCore(f, Finish(imgs, h, Derive(R, O, rmap, chain, h.nextId).value, pmap).value))
  {
    hide Derive, Flat, Lookup, MovedCount, IndexOf, DistinctSlots, ReplayFrom;
    var m := new Maps(R, O, rmap, chain, h.nextId);
    var ok := m.Rebuild();
    if !ok {
      return Missing;
    }
    RebuiltSlots(m, chain);
    var jhead;
    ok, jhead := Replay(imgs, m, h.jtail);
    if !ok {
      return Missing;
    }
    f := Loaded(m, h.pct, pmap, h.ckpt, h.jtail, jhead);
  }

  /** table and maps of the checkpoint, or none before the first */
  method LoadAll(imgs: seq<Image>, R: nat, O: nat, h: Header) returns (f: Found)
    requires O <= R
    ensures f.Loaded? <==> LoadMaps(imgs, R, O, h).Ok?
    ensures f.Loaded? ==> fresh(f.maps) && IsCore(f, LoadMaps(imgs, R, O, h).value)
  {
    hide Derive, Flat, Lookup, MovedCount, IndexOf, Finish, LoadTable, LoadPmap, LoadRmap;
    var N := RmapPages(R);
    if h.ckpt == 0 {
      f := FinishLoad(imgs, R, O, h, map[], [], seq(N, _ => Untouched));
      return;
    }
    var ok, chain := GetTable(imgs, h.ckpt);
    if !ok {
      return Missing;
    }
    var pmap;
    ok, pmap := GetPmap(imgs, h.ckpt, PmapPages(N));
    if !ok || |pmap| != N {
      return Missing;
    }
    var rmap;
    ok, rmap := GetRmap(imgs, R, h.ckpt, pmap);
    if !ok {
      return Missing;
    }
    ChainSlots(LoadTable(imgs, h.ckpt, TBL_PAGES).value, SLOTS);
    RmapRange(imgs, R, h.ckpt, pmap, N);
    f := FinishLoad(imgs, R, O, h, rmap, chain, pmap);
  }

  lemma HeaderPct(imgs: seq<Image>)
    ensures LoadHeader(imgs).Ok? ==> LoadHeader(imgs).value.pct <= 90
  {
  }

  /** rk_sn_load: the maps in core are those the specification loads, and it fails exactly
      when that fails. */
  method LoadRegion(R: nat, imgs: seq<Image>) returns (f: Found)
    ensures f.Loaded? <==> Load(R, imgs).Ok?
    ensures f.Loaded? ==> fresh(f.maps) && IsCore(f, Load(R, imgs).value)
  {
    HeaderPct(imgs);
    hide LoadMaps, LoadHeader;
    var r := GetHeader(imgs);
    if r.Unclean? {
      return Missing;
    }
    var h := r.value;
    var O := h.O;
    if h.R == 0 {
      O := InitOrigin(R, h.pct);
      if O == 0 || O >= R {
        return Missing;
      }
    } else if h.R != R || h.pages != RmapPages(R) || O == 0 || O >= h.R {
      return Missing;
    }
    f := LoadAll(imgs, R, O, h);
  }
}
