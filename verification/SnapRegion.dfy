/** The snapshot region of one member: sealed pages, what a crash may leave of them, and
    how a page is read back from several members (km/raid_km-snapmeta.c:1-267).

    A seal is taken as an ideal integrity check: a page reads back as the one that was
    written (with its generation), as all zeroes, or as rejected. */
module SnapRegion {
  import opened SnapState

  const JPAGES: nat := 1024
  const TBL_PER_PAGE: nat := 3
  const TBL_PAGES: nat := 22
  const PMAP_PER_PAGE: nat := 4080

  // ---- layout -------------------------------------------------------------------------

  function PagesFor(n: nat, per: nat): nat
    requires per > 0
  {
    (n + per - 1) / per
  }

  /** rmap pages per slot, pmap pages per copy */
  function RmapPages(R: nat): nat { PagesFor(R, RMAP_PER_PAGE) }
  function PmapPages(N: nat): nat { PagesFor(N, PMAP_PER_PAGE) }

  datatype Addr =
    | HdrAt(copy: nat)
    | TblAt(copy: nat, page: nat)
    | PmapAt(copy: nat, page: nat)
    | RmapAt(slot: nat, page: nat)
    | JrnlAt(idx: nat)

  predicate InRegion(R: nat, a: Addr) {
    match a
    case HdrAt(copy) => copy < 2
    case TblAt(copy, page) => copy < 2 && page < TBL_PAGES
    case PmapAt(copy, page) => copy < 2 && page < PmapPages(RmapPages(R))
    case RmapAt(slot, page) => slot < 2 && page < RmapPages(R)
    case JrnlAt(idx) => idx < JPAGES
  }

  /** the page number in the region: header x2 | table x2 | pmap x2 | rmap x2 | journal */
  function PageNo(R: nat, a: Addr): nat {
    var N, pmp := RmapPages(R), PmapPages(RmapPages(R));
    var offPmap := 2 + 2 * TBL_PAGES;
    match a
    case HdrAt(copy) => copy
    case TblAt(copy, page) => 2 + copy * TBL_PAGES + page
    case PmapAt(copy, page) => offPmap + copy * pmp + page
    case RmapAt(slot, page) => offPmap + 2 * pmp + slot * N + page
    case JrnlAt(idx) => offPmap + 2 * pmp + 2 * N + idx
  }

  /** rk_sn_region_pages */
  function RegionPages(R: nat): nat {
    2 + 2 * TBL_PAGES + 2 * PmapPages(RmapPages(R)) + 2 * RmapPages(R) + JPAGES
  }

  lemma FirstOrSecond(R: nat, a: Addr)
    requires InRegion(R, a)
    ensures a.TblAt? || a.PmapAt? ==> a.copy == 0 || a.copy == 1
    ensures a.TblAt? ==> a.copy * TBL_PAGES == if a.copy == 0 then 0 else TBL_PAGES
    ensures var n := PmapPages(RmapPages(R)); a.PmapAt? ==> a.copy * n == if a.copy == 0 then 0 else n
    ensures a.RmapAt? ==> a.slot * RmapPages(R) == if a.slot == 0 then 0 else RmapPages(R)
  {
    hide RmapPages, PmapPages;
  }

  /** No two pages of the region overlap and all of them fit: naming pages by kind and
      position loses nothing. */
  lemma LayoutDisjoint(R: nat, a: Addr, b: Addr)
    requires InRegion(R, a) && InRegion(R, b)
    ensures PageNo(R, a) < RegionPages(R)
    ensures PageNo(R, a) == PageNo(R, b) ==> a == b
  {
    FirstOrSecond(R, a);
    FirstOrSecond(R, b);
    hide RmapPages, PmapPages;
  }

  // ---- pages ----------------------------------------------------------------------------

  /** a snapshot's entry in the table */
  datatype Tent = Tent(id: nat, ctime: int, name: Text, attrs: Text)

  /** the pmap byte of one rmap page: never written, or which slot holds it */
  datatype PmapEnt = Untouched | Touched(slot: nat)

  datatype Body =
    | Hdr(pct: nat, R: nat, O: nat, ckpt: nat, jtail: nat, nextId: nat, pages: nat)
    | Tbl(ents: map<nat, Tent>)
    | Pmap(bytes: seq<PmapEnt>)
    | Rmap(rows: map<nat, Ent>)
    | Jrnl(ops: seq<Op>)

  /** what rk_sn_check makes of a page: 0, -1 or 1 with its gen */
  datatype Page = Zero | Bad | Good(gen: nat, body: Body)

  /** the kind's magic is folded into the seal */
  predicate OfKind(a: Addr, body: Body) {
    match a
    case HdrAt(_) => body.Hdr?
    case TblAt(_, _) => body.Tbl?
    case PmapAt(_, _) => body.Pmap?
    case RmapAt(_, _) => body.Rmap?
    case JrnlAt(_) => body.Jrnl?
  }

  /** one member's region as it reads after a power cut; a page not in the map is zeroes */
  type Image = map<Addr, Page>

  function Rd(img: Image, a: Addr): Page {
    if a in img then img[a] else Zero
  }

  // ---- a member while it runs --------------------------------------------------------------

  /** cur: the last page written at each address; may: what else a power cut may leave
      there -- the pages overwritten since the last flush, or a torn one. */
  datatype Disk = Disk(cur: Image, may: map<Addr, set<Page>>)

  datatype Ev =
    | Write(a: Addr, pg: Page)
    | Flush
    | Fua(done: set<Addr>)    // forced writes to these addresses completed

  function Maybe(d: Disk, a: Addr): set<Page> {
    if a in d.may then d.may[a] else {}
  }

  function Do(d: Disk, ev: Ev): Disk {
    match ev
    case Write(a, pg) => Disk(d.cur[a := pg], d.may[a := Maybe(d, a) + {Rd(d.cur, a), Bad}])
    case Flush => Disk(d.cur, map[])
    case Fua(done) => Disk(d.cur, d.may - done)
  }

  function DoAll(d: Disk, evs: seq<Ev>): Disk {
    if evs == [] then d else Do(DoAll(d, evs[..|evs| - 1]), evs[|evs| - 1])
  }

  predicate Possible(d: Disk, a: Addr, pg: Page) {
    pg == Rd(d.cur, a) || pg in Maybe(d, a)
  }

  /** A power cut now may leave img: at every address, independently, any page written
      since the last flush, the one before, or a torn one. */
  ghost predicate IsImage(d: Disk, img: Image) {
    forall a :: Possible(d, a, Rd(img, a))
  }

  /** this page is durable here */
  predicate Holds(d: Disk, a: Addr, pg: Page) {
    a !in d.may && Rd(d.cur, a) == pg
  }

  lemma HoldsImage(d: Disk, img: Image, a: Addr, pg: Page)
    requires IsImage(d, img) && Holds(d, a, pg)
    ensures Rd(img, a) == pg
  {
    assert Possible(d, a, Rd(img, a));
  }

  /** two images that read the same everywhere but at a */
  ghost predicate SameBut(x: Image, y: Image, a: Addr) {
    forall b :: b != a ==> Rd(x, b) == Rd(y, b)
  }

  /** Before a write any image after it was possible but for the page written. */
  lemma ImageBeforeWrite(d: Disk, a: Addr, pg: Page, img: Image) returns (before: Image)
    requires IsImage(Do(d, Write(a, pg)), img)
    ensures IsImage(d, before) && SameBut(before, img, a)
    ensures Rd(before, a) == Rd(d.cur, a)
    ensures Rd(img, a) == pg || Rd(img, a) == Bad || Possible(d, a, Rd(img, a))
  {
    before := img[a := Rd(d.cur, a)];
    var d' := Do(d, Write(a, pg));
    forall b ensures Possible(d, b, Rd(before, b)) {
      assert Possible(d', b, Rd(img, b));
    }
    assert Possible(d', a, Rd(img, a));
  }

  /** Flushes and completions only rule images out. */
  lemma ImageBeforeBarrier(d: Disk, ev: Ev, img: Image)
    requires !ev.Write? && IsImage(Do(d, ev), img)
    ensures IsImage(d, img)
  {
    forall a ensures Possible(d, a, Rd(img, a)) {
      assert Possible(Do(d, ev), a, Rd(img, a));
    }
  }

  // ---- reading a page back -----------------------------------------------------------------

  /** rk_sn_get's [lo, hi]: one generation, any up to one, or the newest of all */
  datatype Want = Exactly(gen: nat) | UpTo(gen: nat) | Newest

  predicate Wanted(want: Want, gen: nat) {
    match want
    case Exactly(g) => gen == g
    case UpTo(g) => gen <= g
    case Newest => true
  }

  /** 1, 0 and -1 */
  datatype Got = Found(gen: nat, body: Body) | Zeroes | Rejected

  /** rk_sn_get from member i on, with what was found and whether something was refused
      before it */
  function GetFrom(imgs: seq<Image>, a: Addr, want: Want, i: nat, best: Got, bad: bool): Got
    requires i <= |imgs|
    decreases |imgs| - i
  {
    if i == |imgs| then (if best.Found? then best else if bad then Rejected else Zeroes)
    else
      match Rd(imgs[i], a)
      case Zero => GetFrom(imgs, a, want, i + 1, best, bad)
      case Bad => GetFrom(imgs, a, want, i + 1, best, true)
      case Good(gen, body) =>
        if !OfKind(a, body) || !Wanted(want, gen) then GetFrom(imgs, a, want, i + 1, best, true)
        else
          var best' := if best.Found? && gen <= best.gen then best else Found(gen, body);
          if want.Exactly? then best' else GetFrom(imgs, a, want, i + 1, best', bad)
  }

  function Get(imgs: seq<Image>, a: Addr, want: Want): Got {
    GetFrom(imgs, a, want, 0, Zeroes, false)
  }

  /** image x has a wanted copy of the page, of this generation and body */
  predicate Offers(img: Image, a: Addr, want: Want, gen: nat, body: Body) {
    Rd(img, a) == Good(gen, body) && OfKind(a, body) && Wanted(want, gen)
  }

  lemma {:induction false} GetFromFound(imgs: seq<Image>, a: Addr, want: Want, i: nat, best: Got, bad: bool)
    requires i <= |imgs|
    ensures var r := GetFrom(imgs, a, want, i, best, bad);
      && (r.Found? ==> r == best || exists k :: i <= k < |imgs| && Offers(imgs[k], a, want, r.gen, r.body))
      && (best.Found? ==> r.Found? && best.gen <= r.gen)
      && (!want.Exactly? ==> forall k, gen: nat, body :: i <= k < |imgs| && Offers(imgs[k], a, want, gen, body) ==>
            r.Found? && gen <= r.gen)
      && (forall k, gen: nat, body :: i <= k < |imgs| && Offers(imgs[k], a, want, gen, body) ==> r.Found?)
    decreases |imgs| - i
  {
    if i < |imgs| {
      match Rd(imgs[i], a) {
        case Zero => GetFromFound(imgs, a, want, i + 1, best, bad);
        case Bad => GetFromFound(imgs, a, want, i + 1, best, true);
        case Good(gen, body) =>
          if !OfKind(a, body) || !Wanted(want, gen) {
            GetFromFound(imgs, a, want, i + 1, best, true);
          } else {
            assert Offers(imgs[i], a, want, gen, body);
            var best' := if best.Found? && gen <= best.gen then best else Found(gen, body);
            if !want.Exactly? {
              GetFromFound(imgs, a, want, i + 1, best', bad);
            }
          }
      }
    }
  }

  /** What rk_sn_get finds was on some member, is the newest wanted copy of all (one
      generation: any copy), and is found whenever some member has one. */
  lemma GetFinds(imgs: seq<Image>, a: Addr, want: Want)
    ensures var r := Get(imgs, a, want);
      && (r.Found? ==> exists k :: 0 <= k < |imgs| && Offers(imgs[k], a, want, r.gen, r.body))
      && (forall k, gen: nat, body :: 0 <= k < |imgs| && Offers(imgs[k], a, want, gen, body) ==>
            r.Found? && gen <= r.gen)
  {
    GetFromFound(imgs, a, want, 0, Zeroes, false);
  }

  lemma {:induction false} GetFromNone(imgs: seq<Image>, a: Addr, want: Want, i: nat, best: Got, bad: bool)
    requires best.Found? || best.Zeroes?
    requires i <= |imgs|
    ensures var r := GetFrom(imgs, a, want, i, best, bad);
      r.Zeroes? <==> !best.Found? && !bad && forall k :: i <= k < |imgs| ==> Rd(imgs[k], a).Zero?
    decreases |imgs| - i
  {
    if i < |imgs| {
      match Rd(imgs[i], a)
      case Zero => GetFromNone(imgs, a, want, i + 1, best, bad);
      case Bad => GetFromNone(imgs, a, want, i + 1, best, true);
      case Good(gen, body) =>
        if !OfKind(a, body) || !Wanted(want, gen) {
          GetFromNone(imgs, a, want, i + 1, best, true);
        } else {
          var best' := if best.Found? && gen <= best.gen then best else Found(gen, body);
          if !want.Exactly? {
            GetFromNone(imgs, a, want, i + 1, best', bad);
          }
        }
    }
  }

  /** A page counts as never written exactly when it is so on every member. */
  lemma GetNothing(imgs: seq<Image>, a: Addr, want: Want)
    ensures Get(imgs, a, want).Zeroes? <==> forall k :: 0 <= k < |imgs| ==> Rd(imgs[k], a).Zero?
  {
    GetFromNone(imgs, a, want, 0, Zeroes, false);
  }

  /** Where every member that has a wanted copy has the same body, that body is read. */
  lemma GetAgreed(imgs: seq<Image>, a: Addr, want: Want, body: Body)
    requires exists k, gen: nat :: 0 <= k < |imgs| && Offers(imgs[k], a, want, gen, body)
    requires forall k, gen: nat, b :: 0 <= k < |imgs| && Offers(imgs[k], a, want, gen, b) ==> b == body
    ensures Get(imgs, a, want).Found? && Get(imgs, a, want).body == body
  {
    GetFinds(imgs, a, want);
  }
}
