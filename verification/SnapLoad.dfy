/** Loading the region at assemble: header, table, maps, derive, replay
    (km/raid_km-snapmeta.c:845-1229), and why it finds the state that was committed. */
module SnapLoad {
  import opened Counting
  import opened SnapState
  import opened SnapWalk
  import opened SnapDerive
  import opened SnapRegion

  // ---- what is stored ------------------------------------------------------------------

  /** the table page of a chain: its snapshots with slots [3p, 3p + 3) */
  function TblPage(snaps: seq<Snap>, p: nat): map<nat, Tent> {
    map slot: nat | TBL_PER_PAGE * p <= slot < TBL_PER_PAGE * (p + 1) && slot < SLOTS && IndexOf(snaps, slot) < |snaps|
      :: EntryOf(snaps[IndexOf(snaps, slot)])
  }

  function EntryOf(g: Snap): Tent {
    Tent(g.id, g.ctime, g.name, g.attrs)
  }

  /** the reverse-map entries of page p */
  function RmapPage(rmap: map<nat, Ent>, p: nat): map<nat, Ent> {
    map P | P in rmap && P / RMAP_PER_PAGE == p :: rmap[P]
  }

  function PmapPage(pmap: seq<PmapEnt>, p: nat): seq<PmapEnt> {
    if PMAP_PER_PAGE * p >= |pmap| then []
    else if PMAP_PER_PAGE * (p + 1) >= |pmap| then pmap[PMAP_PER_PAGE * p..]
    else pmap[PMAP_PER_PAGE * p..PMAP_PER_PAGE * (p + 1)]
  }

  // ---- loading, page by page ---------------------------------------------------------------

  datatype Header = Header(pct: nat, R: nat, O: nat, ckpt: nat, jtail: nat, nextId: nat, pages: nat)

  /** rk_sn_load_hdr: the newer of the two copies, over all members */
  function LoadHeader(imgs: seq<Image>): Result<Header> {
    var r0, r1 := Get(imgs, HdrAt(0), Newest), Get(imgs, HdrAt(1), Newest);
    if !r0.Found? && !r1.Found? then Unclean
    else
      var which := if r0.Found? && !(r1.Found? && r1.gen > r0.gen) then 0 else 1;
      var best := if which == 0 then r0.gen else r1.gen;
      match Get(imgs, HdrAt(which), Exactly(best))
      case Zeroes => Unclean
      case Rejected => Unclean
      case Found(gen, body) =>
        if !body.Hdr? || body.pct < 1 || body.pct > 90 || body.ckpt != gen then Unclean
        else Ok(Header(body.pct, body.R, body.O, body.ckpt, body.jtail,
                       if body.nextId == 0 then 1 else body.nextId, body.pages))
  }

  /** insert before the first snapshot with a higher id */
  function InsertById(chain: seq<Snap>, g: Snap): seq<Snap> {
    if chain == [] || chain[0].id > g.id then [g] + chain else [chain[0]] + InsertById(chain[1..], g)
  }

  function FromEntry(slot: nat, t: Tent): Snap {
    Snap(t.id, slot, t.ctime, t.name, t.attrs, map[], 0)
  }

  /** the chain from the table's slots below n */
  function ChainOf(ents: map<nat, Tent>, n: nat): seq<Snap> {
    if n == 0 then []
    else if n - 1 in ents then InsertById(ChainOf(ents, n - 1), FromEntry(n - 1, ents[n - 1]))
    else ChainOf(ents, n - 1)
  }

  /** rk_sn_load_table: the entries of the first n pages of checkpoint c's copy */
  function LoadTable(imgs: seq<Image>, c: nat, n: nat): Result<map<nat, Tent>> {
    if n == 0 then Ok(map[])
    else
      match LoadTable(imgs, c, n - 1)
      case Unclean => Unclean
      case Ok(ents) =>
        match Get(imgs, TblAt(c % 2, n - 1), Exactly(c))
        case Found(_, body) => if body.Tbl? then Ok(ents + body.ents) else Unclean
        case _ => Unclean
  }

  /** rk_sn_load_maps, first loop: the pmap's first n pages */
  function LoadPmap(imgs: seq<Image>, c: nat, n: nat): Result<seq<PmapEnt>> {
    if n == 0 then Ok([])
    else
      match LoadPmap(imgs, c, n - 1)
      case Unclean => Unclean
      case Ok(bytes) =>
        match Get(imgs, PmapAt(c % 2, n - 1), Exactly(c))
        case Found(_, body) => if body.Pmap? then Ok(bytes + body.bytes) else Unclean
        case _ => Unclean
  }

  /** ... second loop: the touched rmap pages below n, each the newest copy no later than c
      from the slot the pmap names */
  function LoadRmap(imgs: seq<Image>, R: nat, c: nat, pmap: seq<PmapEnt>, n: nat): Result<map<nat, Ent>>
    requires n <= |pmap|
    decreases n
  {
    if n == 0 then Ok(map[])
    else
      match LoadRmap(imgs, R, c, pmap, n - 1)
      case Unclean => Unclean
      case Ok(rmap) =>
        match pmap[n - 1]
        case Untouched => Ok(rmap)
        case Touched(slot) =>
          match Get(imgs, RmapAt(slot, n - 1), UpTo(c))
          case Found(_, body) =>
            if body.Rmap? && forall P :: P in body.rows ==> P < R then Ok(rmap + body.rows) else Unclean
          case _ => Unclean
  }

  // ---- replay --------------------------------------------------------------------------------

  /** the state, and the reverse-map pages changed since the checkpoint */
  datatype Live = Live(st: St, rdirty: set<nat>)

  ghost function ReplayOps(v: Live, ops: seq<Op>): Result<Live>
    decreases |ops|
  {
    if ops == [] then Ok(v)
    else if OpValid(v.st, ops[0]) && Applicable(v.st, ops[0]) then
      ReplayOps(Live(Apply(v.st, ops[0]), v.rdirty + DirtyPages(v.st, ops[0])), ops[1..])
    else Unclean
  }

  /** the journal generations from seq on that some member holds */
  ghost function GensFrom(imgs: seq<Image>, from: nat): set<nat> {
    set i, a | 0 <= i < |imgs| && a in imgs[i] && imgs[i][a].Good? && imgs[i][a].gen >= from :: imgs[i][a].gen
  }

  lemma GensShrink(imgs: seq<Image>, from: nat)
    requires Get(imgs, JrnlAt(from % JPAGES), Exactly(from)).Found?
    ensures |GensFrom(imgs, from + 1)| < |GensFrom(imgs, from)|
  {
    var a := JrnlAt(from % JPAGES);
    GetFinds(imgs, a, Exactly(from));
    var r := Get(imgs, a, Exactly(from));
    var k :| 0 <= k < |imgs| && Offers(imgs[k], a, Exactly(from), r.gen, r.body);
    assert a in imgs[k] && imgs[k][a].Good? && imgs[k][a].gen >= from;
    assert from in GensFrom(imgs, from);
    assert GensFrom(imgs, from + 1) <= GensFrom(imgs, from) - {from};
    SmallerSet(GensFrom(imgs, from + 1), GensFrom(imgs, from) - {from});
  }

  datatype Replayed = Replayed(v: Live, jhead: nat)

  /** rk_sn_replay from record seq on: apply records while some member has the next one */
  ghost function ReplayFrom(imgs: seq<Image>, v: Live, from: nat): Result<Replayed>
    decreases |GensFrom(imgs, from)|
  {
    match Get(imgs, JrnlAt(from % JPAGES), Exactly(from))
    case Found(_, body) =>
      GensShrink(imgs, from);
      if !body.Jrnl? then Unclean
      else
        (match ReplayOps(v, body.ops)
         case Unclean => Unclean
         case Ok(v') => ReplayFrom(imgs, v', from + 1))
    case _ => Ok(Replayed(v, from))
  }

  // ---- the whole load -------------------------------------------------------------------------

  /** the in-core state, with what the metadata keeps beside the maps */
  datatype Core = Core(st: St, pct: nat, pmap: seq<PmapEnt>, rdirty: set<nat>,
                       ckpt: nat, jtail: nat, jhead: nat, scrub: bool)

  /** the origin of an array whose header mdadm wrote: (100 - pct)% of the rows */
  function InitOrigin(R: nat, pct: nat): nat
    requires pct <= 100
  {
    R * (100 - pct) / 100
  }

  /** the most rows that leave pct percent of all for snapshots */
  lemma OriginShare(R: nat, pct: nat, O: nat)
    requires pct <= 100
    ensures O <= InitOrigin(R, pct) <==> O <= R && (R - O) * 100 >= R * pct
  {
    assert R * (100 - pct) == R * 100 - R * pct;
  }

  ghost function LoadMaps(imgs: seq<Image>, R: nat, O: nat, h: Header): Result<Core> {
    var N := RmapPages(R);
    if h.ckpt == 0 then
      var pmap := seq(N, _ => Untouched);
      match Derive(R, O, map[], [], h.nextId)
      case Unclean => Unclean
      case Ok(st) => Finish(imgs, h, st, pmap)
    else
      match LoadTable(imgs, h.ckpt, TBL_PAGES)
      case Unclean => Unclean
      case Ok(ents) =>
        match LoadPmap(imgs, h.ckpt, PmapPages(N))
        case Unclean => Unclean
        case Ok(pmap) =>
          if |pmap| != N then Unclean
          else
            match LoadRmap(imgs, R, h.ckpt, pmap, N)
            case Unclean => Unclean
            case Ok(rmap) =>
              match Derive(R, O, rmap, ChainOf(ents, SLOTS), h.nextId)
              case Unclean => Unclean
              case Ok(st) => Finish(imgs, h, st, pmap)
  }

  ghost function Finish(imgs: seq<Image>, h: Header, st: St, pmap: seq<PmapEnt>): Result<Core> {
    match ReplayFrom(imgs, Live(st, {}), h.jtail)
    case Unclean => Unclean
    case Ok(r) => Ok(Core(r.v.st, h.pct, pmap, r.v.rdirty, h.ckpt, h.jtail, r.jhead, true))
  }

  /** rk_sn_load on an array of R rows, from these members' regions */
  ghost function Load(R: nat, imgs: seq<Image>): Result<Core> {
    match LoadHeader(imgs)
    case Unclean => Unclean
    case Ok(h) =>
      if h.R == 0 then
        var O := InitOrigin(R, h.pct);
        if O == 0 || O >= R then Unclean else LoadMaps(imgs, R, O, h)
      else if h.R != R || h.pages != RmapPages(R) || h.O == 0 || h.O >= h.R then Unclean
      else LoadMaps(imgs, R, h.O, h)
  }
}
