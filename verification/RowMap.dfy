/** The row state map's promise: a row some member was let write to never loads as unused.
    In-core states, the epoch / need / durable gate, flushes page by page and member by member
    with notes and discards in between, power cuts that tear the write under way
    (km/raid_km-rowmap.c:179-234, 253-312, 345-368, 413-428, 696-769). */
module RowMap {

  const PER_PAGE: nat := 16320

  /** unused, needs sync, written, syncing */
  datatype State = U | N | W | S

  /** what rk_rm_check makes of a page: never written, not trusted, or good with its gen */
  datatype Pg = Zero | Bad | Good(gen: nat, body: map<nat, State>)

  /** a member's copy of a page: what was last written, and what else a power cut may leave */
  datatype Cell = Cell(cur: Pg, may: set<Pg>)

  /** the page a flush is writing: its contents as copied, and the members still to take it */
  datatype Writing = Nothing | Writing(p: nat, body: map<nat, State>, left: set<nat>, took: bool, tried: bool)

  datatype Flush = Idle | Running(todo: set<nat>, failed: bool, at: Writing)

  datatype Sys = Sys(
    states: seq<State>,
    dirty: set<nat>,             // pages changed since a flush took them
    need: map<nat, nat>,         // the epoch that makes a page's U -> x durable
    epoch: nat,
    durable: nat,
    gen: nat,
    flush: Flush,
    disks: map<nat, map<nat, Cell>>,
    wet: set<nat>,               // rows a member write was let through to since their last discard
    safe: set<nat>,              // rows whose page is on the members as not unused
    base: map<nat, nat>)         // the gen that made a page's rows safe

  datatype Step =
    | Note(r: nat, full: bool)   // a write of the row is about to go out
    | Discard(r: nat)
    | Restate(r: nat, st: State, persist: bool)
    | Start                      // a flush takes the dirty pages
    | Copy(p: nat)
    | Put(m: nat)                // the copied page on its way to a member
    | Took(m: nat)
    | Refused(m: nat)            // that member failed: it is out of the array
    | PageOver
    | FlushOver
    | Release(r: nat)            // the row's member writes go out
    | Lose(m: nat)
    | PowerCut(imgs: Images, gen: nat)

  // ---- pages --------------------------------------------------------------------------------

  function PageOf(r: nat): nat {
    r / PER_PAGE
  }

  function Body(states: seq<State>, p: nat): map<nat, State> {
    map r | 0 <= r < |states| && PageOf(r) == p :: states[r]
  }

  function CellOf(disk: map<nat, Cell>, p: nat): Cell {
    if p in disk then disk[p] else Cell(Zero, {})
  }

  predicate Possible(c: Cell, pg: Pg) {
    pg == c.cur || pg in c.may
  }

  function PutCell(disk: map<nat, Cell>, p: nat, c: Cell): map<nat, Cell> {
    disk[p := c]
  }

  function Need(s: Sys, p: nat): nat {
    if p in s.need then s.need[p] else 0
  }

  // ---- steps -----------------------------------------------------------------------------------

  /** raidkm_rowmap_note_write, for one row */
  function DoNote(s: Sys, r: nat, full: bool): Sys
    requires r < |s.states|
  {
    if s.states[r].U? then
      s.(states := s.states[r := if full then W else N], need := s.need[PageOf(r) := s.epoch + 1],
         dirty := s.dirty + {PageOf(r)})
    else if !s.states[r].W? && full then s.(states := s.states[r := W], dirty := s.dirty + {PageOf(r)})
    else s
  }

  function DoDiscard(s: Sys, r: nat): Sys
    requires r < |s.states|
  {
    if s.states[r].U? then s
    else s.(states := s.states[r := U], dirty := s.dirty + {PageOf(r)}, wet := s.wet - {r}, safe := s.safe - {r})
  }

  /** the top of raidkm_rowmap_flush; nothing dirty: only the epoch moves */
  function DoStart(s: Sys): Sys {
    if s.dirty == {} then s.(epoch := s.epoch + 1, durable := s.epoch + 1)
    else s.(epoch := s.epoch + 1, gen := s.gen + 1, dirty := {}, flush := Running(s.dirty, false, Nothing))
  }

  predicate CanCopy(s: Sys, p: nat) {
    s.flush.Running? && s.flush.at.Nothing? && p in s.flush.todo
  }

  function DoCopy(s: Sys, p: nat): Sys
    requires CanCopy(s, p)
  {
    s.(flush := Running(s.flush.todo - {p}, s.flush.failed,
                        Writing(p, Body(s.states, p), s.disks.Keys, false, s.disks.Keys != {})))
  }

  predicate IsWriting(s: Sys) {
    s.flush.Running? && s.flush.at.Writing?
  }

  /** the page's write to m is under way: m has it, the page before it, or a torn one */
  function DoPut(s: Sys, m: nat): Sys
    requires IsWriting(s) && m in s.disks
  {
    var w, c := s.flush.at, CellOf(s.disks[m], s.flush.at.p);
    s.(disks := s.disks[m := PutCell(s.disks[m], w.p, Cell(Good(s.gen, w.body), c.may + {c.cur, Bad}))])
  }

  /** ... and done */
  function DoTook(s: Sys, m: nat): Sys
    requires IsWriting(s) && m in s.disks
  {
    var w := s.flush.at;
    s.(disks := s.disks[m := PutCell(s.disks[m], w.p, Cell(Good(s.gen, w.body), {}))],
       flush := s.flush.(at := w.(left := w.left - {m}, took := true)))
  }

  function DoLose(s: Sys, m: nat): Sys {
    s.(disks := s.disks - {m},
       flush := if IsWriting(s) then s.flush.(at := s.flush.at.(left := s.flush.at.left - {m})) else s.flush)
  }

  /** rows of the page that are on the members as not unused now */
  function NowSafe(s: Sys, w: Writing): set<nat>
    requires w.Writing?
  {
    set r | r in w.body && r < |s.states| && !w.body[r].U? && !s.states[r].U?
  }

  function DoPageOver(s: Sys): Sys
    requires IsWriting(s)
  {
    var w := s.flush.at;
    if w.tried && !w.took then
      s.(dirty := s.dirty + {w.p}, flush := Running(s.flush.todo, true, Nothing))
    else
      s.(safe := s.safe + NowSafe(s, w), base := s.base[w.p := s.gen],
         flush := Running(s.flush.todo, s.flush.failed, Nothing))
  }

  function DoFlushOver(s: Sys): Sys
    requires s.flush.Running?
  {
    s.(flush := Idle, durable := if s.flush.failed then s.durable else s.epoch)
  }

  // ---- loading -------------------------------------------------------------------------------------

  type Images = map<nat, map<nat, Pg>>

  function PgOf(imgs: Images, m: nat, p: nat): Pg {
    if m in imgs && p in imgs[m] then imgs[m][p] else Zero
  }

  /** the newest good copy of the page over the members that come back */
  ghost predicate IsBest(imgs: Images, ms: set<nat>, p: nat, m: nat) {
    m in ms && PgOf(imgs, m, p).Good?
    && forall k :: k in ms && PgOf(imgs, k, p).Good? ==> PgOf(imgs, k, p).gen <= PgOf(imgs, m, p).gen
  }

  ghost predicate AnyGood(imgs: Images, ms: set<nat>, p: nat) {
    exists m :: m in ms && PgOf(imgs, m, p).Good?
  }

  ghost predicate AnyBad(imgs: Images, p: nat) {
    exists m :: m in imgs && PgOf(imgs, m, p).Bad?
  }

  lemma {:induction false} BestExists(imgs: Images, ms: set<nat>, p: nat)
    requires AnyGood(imgs, ms, p)
    ensures exists m :: IsBest(imgs, ms, p, m)
    decreases |ms|
  {
    var m :| m in ms && PgOf(imgs, m, p).Good?;
    if AnyGood(imgs, ms - {m}, p) {
      BestExists(imgs, ms - {m}, p);
      var k :| IsBest(imgs, ms - {m}, p, k);
      if PgOf(imgs, k, p).gen >= PgOf(imgs, m, p).gen {
        assert IsBest(imgs, ms, p, k);
      } else {
        assert IsBest(imgs, ms, p, m);
      }
    } else {
      assert IsBest(imgs, ms, p, m);
    }
  }

  ghost function Best(imgs: Images, p: nat): (m: nat)
    requires AnyGood(imgs, imgs.Keys, p)
    ensures IsBest(imgs, imgs.Keys, p, m)
  {
    BestExists(imgs, imgs.Keys, p);
    var m :| IsBest(imgs, imgs.Keys, p, m);
    m
  }

  /** rk_rm_load's row r: of the newest copy; needing sync where all that is left is damaged;
      unused where the page was never written */
  ghost function LoadRow(imgs: Images, r: nat): State {
    var p := PageOf(r);
    if AnyGood(imgs, imgs.Keys, p) then
      var body := PgOf(imgs, Best(imgs, p), p).body;
      if r in body then body[r] else U
    else if AnyBad(imgs, p) then N
    else U
  }

  ghost function LoadStates(imgs: Images, n: nat): seq<State> {
    seq(n, r requires 0 <= r < n => LoadRow(imgs, r))
  }

  ghost function BaseGen(imgs: Images, p: nat): nat {
    if AnyGood(imgs, imgs.Keys, p) then PgOf(imgs, Best(imgs, p), p).gen else 0
  }

  /** the newest gen of any page */
  ghost predicate NewestGen(imgs: Images, gen: nat) {
    forall m, p: nat :: m in imgs && PgOf(imgs, m, p).Good? ==> PgOf(imgs, m, p).gen <= gen
  }

  function Cells(img: map<nat, Pg>): map<nat, Cell> {
    map p | p in img :: Cell(img[p], {})
  }

  /** what each member's region may read as after a power cut now */
  ghost predicate IsCut(s: Sys, imgs: Images) {
    && imgs.Keys <= s.disks.Keys
    && forall m, p: nat :: m in imgs ==> Possible(CellOf(s.disks[m], p), PgOf(imgs, m, p))
  }

  /** The newest of the last completed copy of each page is not lost: some member that comes
      back has it, or only damaged copies are left of the page. */
  ghost predicate KeepsNewest(s: Sys, imgs: Images) {
    forall p :: p in s.base ==> KeepsPage(s, imgs, p)
  }

  ghost predicate KeepsPage(s: Sys, imgs: Images, p: nat)
    requires p in s.base
  {
    (exists m :: m in imgs && PgOf(imgs, m, p).Good? && PgOf(imgs, m, p).gen >= s.base[p])
    || (!AnyGood(imgs, imgs.Keys, p) && AnyBad(imgs, p))
  }

  /** the array as rk_rm_load leaves it (gen: no older than any page that was read) */
  ghost function DoLoad(s: Sys, imgs: Images, gen: nat): Sys {
    var states := LoadStates(imgs, |s.states|);
    Sys(states, {}, map[], 0, 0, gen, Idle, map m | m in imgs :: Cells(imgs[m]), s.wet,
        set r | 0 <= r < |states| && !states[r].U?,
        map r | 0 <= r < |states| && !states[r].U? :: PageOf(r) := BaseGen(imgs, PageOf(r)))
  }

  // ---- one step ----------------------------------------------------------------------------------------

  ghost predicate Next(s: Sys, step: Step, t: Sys) {
    match step
    case Note(r, full) => r < |s.states| && t == DoNote(s, r, full)
    case Discard(r) => r < |s.states| && t == DoDiscard(s, r)
    case Restate(r, st, persist) =>
      r < |s.states| && !s.states[r].U? && !st.U?
      && t == s.(states := s.states[r := st], dirty := if persist then s.dirty + {PageOf(r)} else s.dirty)
    case Start => s.flush.Idle? && t == DoStart(s)
    case Copy(p) => CanCopy(s, p) && t == DoCopy(s, p)
    case Put(m) => IsWriting(s) && m in s.disks && m in s.flush.at.left && t == DoPut(s, m)
    case Took(m) => IsWriting(s) && m in s.disks && m in s.flush.at.left && t == DoTook(s, m)
    case Refused(m) => IsWriting(s) && m in s.disks && m in s.flush.at.left && t == DoLose(s, m)
    case PageOver => IsWriting(s) && s.flush.at.left == {} && t == DoPageOver(s)
    case FlushOver => s.flush.Running? && s.flush.at.Nothing? && s.flush.todo == {} && t == DoFlushOver(s)
    case Release(r) =>
      r < |s.states| && !s.states[r].U? && Need(s, PageOf(r)) <= s.durable && t == s.(wet := s.wet + {r})
    case Lose(m) => t == DoLose(s, m)
    case PowerCut(imgs, gen) => imgs != map[] && IsCut(s, imgs) && NewestGen(imgs, gen) && t == DoLoad(s, imgs, gen)
  }

  // ---- the invariant ---------------------------------------------------------------------------------------

  /** the copies of page p any member may be left with */
  ghost predicate Copies(s: Sys, p: nat, pg: Pg) {
    exists m :: m in s.disks && Possible(CellOf(s.disks[m], p), pg)
  }

  ghost predicate CountersOk(s: Sys) {
    && (forall p :: p in s.need ==> s.need[p] <= s.epoch + 1)
    && s.durable <= s.epoch
    && (forall p :: p in s.base ==> s.base[p] <= s.gen)
    && (forall p, pg :: Copies(s, p, pg) && pg.Good? ==> pg.gen <= s.gen)
  }

  /** copies of one page with one gen are the same */
  ghost predicate CopiesAgree(s: Sys) {
    forall p, pg, pg' :: Copies(s, p, pg) && Copies(s, p, pg') && pg.Good? && pg'.Good? && pg.gen == pg'.gen ==> pg == pg'
  }

  /** the body is a whole page, and calls no safe row unused */
  ghost predicate Covers(s: Sys, p: nat, body: map<nat, State>) {
    forall r :: r in s.safe && PageOf(r) == p ==> r in body && !body[r].U?
  }

  ghost predicate WholePages(s: Sys) {
    forall p, pg :: Copies(s, p, pg) && pg.Good? ==> forall r :: 0 <= r < |s.states| && PageOf(r) == p ==> r in pg.body
  }

  ghost predicate SafeOk(s: Sys) {
    && (forall r :: r in s.safe ==> r < |s.states| && !s.states[r].U? && PageOf(r) in s.base)
    && (forall p, pg :: Copies(s, p, pg) && pg.Good? && p in s.base && pg.gen >= s.base[p] ==> Covers(s, p, pg.body))
  }

  /** the page being written has the row as not unused */
  predicate InCopy(s: Sys, r: nat) {
    IsWriting(s) && s.flush.at.p == PageOf(r) && r in s.flush.at.body && !s.flush.at.body[r].U?
  }

  /** a row in use that is not safe yet is gated, and on its way */
  ghost predicate Gated(s: Sys, r: nat)
    requires r < |s.states|
  {
    !s.states[r].U? && r !in s.safe ==>
      && Need(s, PageOf(r)) > s.durable
      && match s.flush
         case Idle => PageOf(r) in s.dirty
         case Running(todo, failed, at) =>
           && (PageOf(r) in s.dirty || PageOf(r) in todo || InCopy(s, r))
           && (!failed ==> PageOf(r) in todo || InCopy(s, r) || Need(s, PageOf(r)) > s.epoch)
  }

  ghost predicate GateOk(s: Sys) {
    forall r :: 0 <= r < |s.states| ==> Gated(s, r)
  }

  ghost predicate FlushOk(s: Sys) {
    s.flush.Running? ==>
      && (forall p, pg :: p in s.flush.todo && Copies(s, p, pg) && pg.Good? ==> pg.gen < s.gen)
      && (forall p :: p in s.flush.todo && p in s.base ==> s.base[p] < s.gen)
      && (s.flush.at.Writing? ==>
            && s.flush.at.p !in s.flush.todo && s.flush.at.left <= s.disks.Keys
            && (s.flush.at.p in s.base ==> s.base[s.flush.at.p] < s.gen)
            && (forall r :: 0 <= r < |s.states| && PageOf(r) == s.flush.at.p ==> r in s.flush.at.body)
            && (forall r :: r in s.flush.at.body ==> PageOf(r) == s.flush.at.p)
            && Covers(s, s.flush.at.p, s.flush.at.body)
            && (forall pg :: Copies(s, s.flush.at.p, pg) && pg.Good? && pg.gen >= s.gen ==>
                  pg == Good(s.gen, s.flush.at.body)))
  }

  /** what every run keeps, whatever its power cuts leave */
  ghost predicate Sound(s: Sys) {
    CountersOk(s) && CopiesAgree(s) && WholePages(s) && SafeOk(s) && GateOk(s) && FlushOk(s)
  }

  /** ... and what it keeps while they leave the newest copies: a row let through is safe */
  ghost predicate Inv(s: Sys) {
    Sound(s) && s.wet <= s.safe
  }

  lemma SameCopies(s: Sys, t: Sys)
    requires t.disks == s.disks
    ensures forall p: nat, pg :: Copies(t, p, pg) == Copies(s, p, pg)
  {
  }

  // ---- rows change state -------------------------------------------------------------------------

  /** nothing of the members, the safe rows or the flush under way changes */
  predicate SameStored(s: Sys, t: Sys) {
    && t.disks == s.disks && t.safe == s.safe && t.base == s.base && t.gen == s.gen && t.flush == s.flush
    && |t.states| == |s.states|
  }

  lemma StoredKept(s: Sys, t: Sys)
    requires SameStored(s, t) && CopiesAgree(s) && WholePages(s) && FlushOk(s)
    ensures CopiesAgree(t) && WholePages(t) && FlushOk(t)
  {
    SameCopies(s, t);
    hide Copies;
  }

  lemma NoteCounters(s: Sys, t: Sys)
    requires CountersOk(s) && SameStored(s, t) && t.epoch == s.epoch && t.durable == s.durable
    requires forall p :: p in t.need ==> (p in s.need && t.need[p] == s.need[p]) || t.need[p] == s.epoch + 1
    ensures CountersOk(t)
  {
    SameCopies(s, t);
    hide Copies;
  }

  lemma SafeKept(s: Sys, t: Sys)
    requires SafeOk(s) && SameStored(s, t)
    requires forall r :: r in s.safe ==> !t.states[r].U?
    ensures SafeOk(t)
  {
    SameCopies(s, t);
    hide Copies;
  }

  lemma NoteGate(s: Sys, t: Sys, r: nat, full: bool)
    requires r < |s.states| && t == DoNote(s, r, full) && GateOk(s) && s.durable <= s.epoch
    requires forall p :: p in s.need ==> s.need[p] <= s.epoch + 1
    ensures GateOk(t)
  {
    forall q | 0 <= q < |t.states| ensures Gated(t, q) {
      assert Gated(s, q);
    }
  }

  lemma NoteKeeps(s: Sys, r: nat, full: bool)
    requires Sound(s) && r < |s.states|
    ensures Sound(DoNote(s, r, full))
  {
    var t := DoNote(s, r, full);
    NoteGate(s, t, r, full);
    assert SameStored(s, t);
    hide GateOk, CopiesAgree, WholePages, FlushOk;
    StoredKept(s, t);
    NoteCounters(s, t);
    SafeKept(s, t);
  }

  lemma DiscardSafe(s: Sys, t: Sys, r: nat)
    requires SafeOk(s) && FlushOk(s) && r < |s.states| && t == DoDiscard(s, r)
    ensures SafeOk(t) && FlushOk(t)
  {
    SameCopies(s, t);
    hide Copies;
  }

  lemma DiscardKeeps(s: Sys, r: nat)
    requires Sound(s) && r < |s.states|
    ensures Sound(DoDiscard(s, r))
  {
    var t := DoDiscard(s, r);
    SameCopies(s, t);
    forall q | 0 <= q < |t.states| ensures Gated(t, q) {
      assert Gated(s, q);
    }
    DiscardSafe(s, t, r);
    hide Copies, SafeOk, FlushOk;
  }

  lemma RestateKeeps(s: Sys, r: nat, st: State, persist: bool)
    requires Sound(s) && r < |s.states| && !s.states[r].U? && !st.U?
    ensures Sound(s.(states := s.states[r := st], dirty := if persist then s.dirty + {PageOf(r)} else s.dirty))
  {
    var t := s.(states := s.states[r := st], dirty := if persist then s.dirty + {PageOf(r)} else s.dirty);
    assert SameStored(s, t);
    forall q | 0 <= q < |t.states| ensures Gated(t, q) {
      assert Gated(s, q);
    }
    hide Gated, CopiesAgree, WholePages, FlushOk;
    StoredKept(s, t);
    NoteCounters(s, t);
    SafeKept(s, t);
  }

  /** what is let through is safe: the gate holds back every row that is not */
  lemma ReleasedIsSafe(s: Sys, r: nat)
    requires Sound(s) && r < |s.states| && !s.states[r].U? && Need(s, PageOf(r)) <= s.durable
    ensures r in s.safe
  {
    assert Gated(s, r);
  }

  lemma ReleaseKeeps(s: Sys, r: nat)
    requires Sound(s) && r < |s.states| && !s.states[r].U? && Need(s, PageOf(r)) <= s.durable
    ensures Sound(s.(wet := s.wet + {r}))
  {
    var t := s.(wet := s.wet + {r});
    SameCopies(s, t);
    forall q | 0 <= q < |t.states| ensures Gated(t, q) {
      assert Gated(s, q);
    }
    hide Copies, Gated;
  }

  // ---- flushes -----------------------------------------------------------------------------------------

  lemma StartKeeps(s: Sys)
    requires Sound(s) && s.flush.Idle?
    ensures Sound(DoStart(s))
  {
    var t := DoStart(s);
    SameCopies(s, t);
    forall q | 0 <= q < |t.states| ensures Gated(t, q) {
      assert Gated(s, q);
    }
    hide Copies, Gated;
  }

  lemma CopyKeeps(s: Sys, p: nat)
    requires Sound(s) && CanCopy(s, p)
    ensures Sound(DoCopy(s, p))
  {
    var t := DoCopy(s, p);
    SameCopies(s, t);
    forall q | 0 <= q < |t.states| ensures Gated(t, q) {
      assert Gated(s, q);
    }
    hide Copies, Gated;
  }

  lemma FlushOverKeeps(s: Sys)
    requires Sound(s) && s.flush.Running? && s.flush.at.Nothing? && s.flush.todo == {}
    ensures Sound(DoFlushOver(s))
  {
    var t := DoFlushOver(s);
    SameCopies(s, t);
    forall q | 0 <= q < |t.states| ensures Gated(t, q) {
      assert Gated(s, q);
    }
    hide Copies, Gated;
  }

  lemma PageOverKeeps(s: Sys)
    requires Sound(s) && IsWriting(s) && s.flush.at.left == {}
    ensures Sound(DoPageOver(s))
  {
    var t := DoPageOver(s);
    SameCopies(s, t);
    forall q | 0 <= q < |t.states| ensures Gated(t, q) {
      assert Gated(s, q);
    }
    hide Copies, Gated;
  }

  /** every copy of t is one of s, the page being written, or a torn one of it */
  ghost predicate OnlyWritten(s: Sys, t: Sys) {
    forall p: nat, pg :: Copies(t, p, pg) ==>
      Copies(s, p, pg) || (IsWriting(s) && p == s.flush.at.p && (pg == Good(s.gen, s.flush.at.body) || pg == Bad))
  }

  lemma CellCopies(s: Sys, t: Sys, m: nat, c: Cell)
    requires IsWriting(s) && m in s.disks && t.disks == s.disks[m := PutCell(s.disks[m], s.flush.at.p, c)]
    requires forall pg :: Possible(c, pg) ==>
      Possible(CellOf(s.disks[m], s.flush.at.p), pg) || pg == Good(s.gen, s.flush.at.body) || pg == Bad
    ensures OnlyWritten(s, t)
  {
    forall p: nat, pg | Copies(t, p, pg)
      ensures Copies(s, p, pg) || (p == s.flush.at.p && (pg == Good(s.gen, s.flush.at.body) || pg == Bad))
    {
      var k :| k in t.disks && Possible(CellOf(t.disks[k], p), pg);
      if k != m || p != s.flush.at.p {
        assert Possible(CellOf(s.disks[k], p), pg);
      }
    }
  }

  lemma PutCopies(s: Sys, m: nat)
    requires IsWriting(s) && m in s.disks
    ensures OnlyWritten(s, DoPut(s, m)) && OnlyWritten(s, DoTook(s, m))
  {
    var w, c := s.flush.at, CellOf(s.disks[m], s.flush.at.p);
    CellCopies(s, DoPut(s, m), m, Cell(Good(s.gen, w.body), c.may + {c.cur, Bad}));
    CellCopies(s, DoTook(s, m), m, Cell(Good(s.gen, w.body), {}));
  }

  lemma LoseCopies(s: Sys, m: nat)
    ensures OnlyWritten(s, DoLose(s, m))
  {
    forall p: nat, pg | Copies(DoLose(s, m), p, pg) ensures Copies(s, p, pg) {
      var k :| k in DoLose(s, m).disks && Possible(CellOf(DoLose(s, m).disks[k], p), pg);
      assert k in s.disks;
    }
  }

  /** a write to a member, or a member less: everything in core but the flush is as it was */
  ghost predicate MemberStep(s: Sys, t: Sys) {
    && OnlyWritten(s, t) && t == s.(disks := t.disks, flush := t.flush)
    && (s.flush.Idle? ==> t.flush.Idle?)
    && (s.flush.Running? ==> t.flush.Running? && t.flush.todo == s.flush.todo && t.flush.failed == s.flush.failed)
    && (s.flush.Running? ==> (t.flush.at.Nothing? <==> s.flush.at.Nothing?))
    && (IsWriting(s) ==> t.flush.at.p == s.flush.at.p && t.flush.at.body == s.flush.at.body)
    && (IsWriting(s) ==> t.flush.at.left <= t.disks.Keys)
  }

  lemma MemberCounters(s: Sys, t: Sys)
    requires MemberStep(s, t) && CountersOk(s) && CopiesAgree(s) && FlushOk(s) && WholePages(s)
    ensures CountersOk(t) && CopiesAgree(t) && WholePages(t)
  {
    hide Copies, Covers;
  }

  lemma MemberFlush(s: Sys, t: Sys)
    requires MemberStep(s, t) && FlushOk(s)
    ensures FlushOk(t)
  {
    hide Copies;
  }

  lemma MemberSafe(s: Sys, t: Sys)
    requires MemberStep(s, t) && SafeOk(s) && FlushOk(s)
    ensures SafeOk(t)
  {
    hide Copies;
    forall p, pg | Copies(t, p, pg) && pg.Good? && p in t.base && pg.gen >= t.base[p] ensures Covers(t, p, pg.body) {
      if Copies(s, p, pg) {
        assert Covers(s, p, pg.body);
      } else {
        assert Covers(s, s.flush.at.p, s.flush.at.body);
      }
    }
  }

  lemma MemberGate(s: Sys, t: Sys)
    requires MemberStep(s, t) && GateOk(s)
    ensures GateOk(t)
  {
    forall q | 0 <= q < |t.states| ensures Gated(t, q) {
      assert Gated(s, q);
    }
  }

  lemma MemberKeeps(s: Sys, t: Sys)
    requires Sound(s) && MemberStep(s, t)
    ensures Sound(t)
  {
    hide MemberStep, CountersOk, CopiesAgree, WholePages, SafeOk, GateOk, FlushOk;
    MemberCounters(s, t);
    MemberFlush(s, t);
    MemberSafe(s, t);
    MemberGate(s, t);
  }

  lemma PutKeeps(s: Sys, m: nat)
    requires Sound(s) && IsWriting(s) && m in s.disks
    ensures Sound(DoPut(s, m)) && Sound(DoTook(s, m))
  {
    assert FlushOk(s);
    hide Sound, OnlyWritten, CellOf;
    PutCopies(s, m);
    MemberKeeps(s, DoPut(s, m));
    MemberKeeps(s, DoTook(s, m));
  }

  lemma LoseKeeps(s: Sys, m: nat)
    requires Sound(s)
    ensures Sound(DoLose(s, m))
  {
    assert FlushOk(s);
    hide Sound, OnlyWritten;
    LoseCopies(s, m);
    MemberKeeps(s, DoLose(s, m));
  }

  // ---- power cuts ------------------------------------------------------------------------------------------

  lemma CutIsCopy(s: Sys, imgs: Images, m: nat, p: nat)
    requires IsCut(s, imgs) && m in imgs
    ensures Copies(s, p, PgOf(imgs, m, p))
  {
    assert m in imgs.Keys;
    assert Possible(CellOf(s.disks[m], p), PgOf(imgs, m, p));
  }

  /** No row a member write was let through to loads as unused: after any power cut that leaves
      the newest of each page's completed copies on some member that comes back, through
      failed flushes, notes and discards during a flush, torn and damaged pages. */
  lemma WetLoadsUsed(s: Sys, imgs: Images, r: nat)
    requires Inv(s) && IsCut(s, imgs) && KeepsNewest(s, imgs) && r in s.wet
    ensures r < |s.states| && !LoadRow(imgs, r).U?
  {
    var p := PageOf(r);
    assert r in s.safe && p in s.base && KeepsPage(s, imgs, p);
    if AnyGood(imgs, imgs.Keys, p) {
      var b := Best(imgs, p);
      var m :| m in imgs && PgOf(imgs, m, p).Good? && PgOf(imgs, m, p).gen >= s.base[p];
      assert PgOf(imgs, b, p).gen >= s.base[p];
      CutIsCopy(s, imgs, b, p);
      assert Covers(s, p, PgOf(imgs, b, p).body);
    }
  }

  lemma LoadedCopies(s: Sys, imgs: Images, gen: nat, p: nat, pg: Pg)
    requires IsCut(s, imgs) && Copies(DoLoad(s, imgs, gen), p, pg)
    ensures exists m :: m in imgs && pg == PgOf(imgs, m, p)
    ensures Copies(s, p, pg)
  {
    var t := DoLoad(s, imgs, gen);
    var m :| m in t.disks && Possible(CellOf(t.disks[m], p), pg);
    assert pg == PgOf(imgs, m, p);
    CutIsCopy(s, imgs, m, p);
  }

  lemma LoadedBest(s: Sys, imgs: Images, gen: nat, p: nat, pg: Pg, r: nat)
    requires IsCut(s, imgs) && CopiesAgree(s) && WholePages(s) && Copies(DoLoad(s, imgs, gen), p, pg) && pg.Good?
    requires r < |s.states| && PageOf(r) == p && pg.gen >= BaseGen(imgs, p) && !LoadRow(imgs, r).U?
    ensures r in pg.body && !pg.body[r].U?
  {
    LoadedCopies(s, imgs, gen, p, pg);
    var m :| m in imgs && pg == PgOf(imgs, m, p);
    var b := Best(imgs, p);
    var best := PgOf(imgs, b, p);
    CutIsCopy(s, imgs, b, p);
    assert best.gen == pg.gen;
    assert best == pg;
  }

  lemma LoadSafe(s: Sys, imgs: Images, gen: nat)
    requires Sound(s) && IsCut(s, imgs)
    ensures SafeOk(DoLoad(s, imgs, gen))
  {
    var t := DoLoad(s, imgs, gen);
    forall p, pg | Copies(t, p, pg) && pg.Good? && p in t.base && pg.gen >= t.base[p] ensures Covers(t, p, pg.body) {
      hide Copies;
      forall r | r in t.safe && PageOf(r) == p ensures r in pg.body && !pg.body[r].U? {
        LoadedBest(s, imgs, gen, p, pg, r);
      }
    }
  }

  lemma LoadCounters(s: Sys, imgs: Images, gen: nat)
    requires Sound(s) && IsCut(s, imgs) && NewestGen(imgs, gen)
    ensures var t := DoLoad(s, imgs, gen); CountersOk(t) && CopiesAgree(t) && WholePages(t)
  {
    var t := DoLoad(s, imgs, gen);
    forall p: nat, pg | Copies(t, p, pg) ensures Copies(s, p, pg) && (pg.Good? ==> pg.gen <= gen) {
      LoadedCopies(s, imgs, gen, p, pg);
    }
    forall p | p in t.base ensures t.base[p] <= gen {
    }
    hide Copies, LoadRow;
  }

  lemma LoadKeeps(s: Sys, imgs: Images, gen: nat)
    requires Sound(s) && IsCut(s, imgs) && NewestGen(imgs, gen)
    ensures Sound(DoLoad(s, imgs, gen))
  {
    LoadSafe(s, imgs, gen);
    LoadCounters(s, imgs, gen);
    hide CountersOk, CopiesAgree, WholePages, SafeOk;
  }

  /** Every step keeps what loads and flushes rely on. */
  lemma StepSound(s: Sys, step: Step, t: Sys)
    requires Sound(s) && Next(s, step, t)
    ensures Sound(t)
  {
    hide Sound, DoNote, DoDiscard, DoStart, DoCopy, DoPut, DoTook, DoLose, DoPageOver, DoFlushOver, DoLoad;
    match step {
      case Note(r, full) => NoteKeeps(s, r, full);
      case Discard(r) => DiscardKeeps(s, r);
      case Restate(r, st, persist) => RestateKeeps(s, r, st, persist);
      case Start => StartKeeps(s);
      case Copy(p) => CopyKeeps(s, p);
      case Put(m) => PutKeeps(s, m);
      case Took(m) => PutKeeps(s, m);
      case Refused(m) => LoseKeeps(s, m);
      case PageOver => PageOverKeeps(s);
      case FlushOver => FlushOverKeeps(s);
      case Release(r) => ReleaseKeeps(s, r);
      case Lose(m) => LoseKeeps(s, m);
      case PowerCut(imgs, gen) => LoadKeeps(s, imgs, gen);
    }
  }

  /** rows let through stay safe: the gate lets no other through, and a power cut that leaves
      the newest copies forgets none */
  lemma WetKept(s: Sys, step: Step, t: Sys)
    requires Inv(s) && Next(s, step, t) && CutOk(NewestLeft, s, step)
    ensures t.wet <= t.safe
  {
    match step {
      case Release(r) => ReleasedIsSafe(s, r);
      case PowerCut(imgs, gen) =>
        forall r | r in t.wet ensures r in t.safe {
          WetLoadsUsed(s, imgs, r);
        }
      case _ => hide Sound;
    }
  }

  /** Every step keeps the promise. */
  lemma StepKeeps(s: Sys, step: Step, t: Sys)
    requires Inv(s) && Next(s, step, t) && CutOk(NewestLeft, s, step)
    ensures Inv(t)
  {
    WetKept(s, step, t);
    hide Sound, Next;
    StepSound(s, step, t);
  }

  // ---- runs -----------------------------------------------------------------------------------------------------

  /** which power cuts a run may have */
  datatype Cuts = AnyCut | NewestLeft | Unsplit

  ghost predicate CutOk(cuts: Cuts, s: Sys, step: Step) {
    step.PowerCut? ==>
      match cuts
      case AnyCut => true
      case NewestLeft => KeepsNewest(s, step.imgs)
      case Unsplit => Agreed(step.imgs)
  }

  /** the members that come back agree on each page, but for damage: none of them was written
      ever, or all were and their good copies are of one gen */
  ghost predicate Agreed(imgs: Images) {
    forall p: nat, m, k :: m in imgs && k in imgs ==> Agree(PgOf(imgs, m, p), PgOf(imgs, k, p))
  }

  predicate Agree(a: Pg, b: Pg) {
    (a.Zero? <==> b.Zero?) && (a.Good? && b.Good? ==> a.gen == b.gen)
  }

  ghost predicate Reaches(cuts: Cuts, s: Sys, steps: seq<Step>, t: Sys)
    decreases |steps|
  {
    if steps == [] then t == s
    else exists u :: Next(s, steps[0], u) && CutOk(cuts, s, steps[0]) && Reaches(cuts, u, steps[1..], t)
  }

  lemma {:induction false} ReachesOn(s: Sys, a: seq<Step>, u: Sys, b: seq<Step>, t: Sys)
    requires Reaches(AnyCut, s, a, u) && Reaches(AnyCut, u, b, t)
    ensures Reaches(AnyCut, s, a + b, t)
    decreases |a|
  {
    hide Next, CutOk;
    if a == [] {
      assert a + b == b;
    } else {
      var v :| Next(s, a[0], v) && CutOk(AnyCut, s, a[0]) && Reaches(AnyCut, v, a[1..], u);
      ReachesOn(v, a[1..], u, b, t);
      assert (a + b)[1..] == a[1..] + b && (a + b)[0] == a[0];
    }
  }

  lemma OneStep(s: Sys, step: Step, t: Sys)
    requires Next(s, step, t)
    ensures Reaches(AnyCut, s, [step], t)
  {
    hide Next;
    assert [step][0] == step && [step][1..] == [];
    assert CutOk(AnyCut, s, step) && Reaches(AnyCut, t, [], t);
  }

  ghost predicate NoCuts(steps: seq<Step>) {
    forall i :: 0 <= i < |steps| ==> !steps[i].PowerCut?
  }

  lemma NoCutsJoin(a: seq<Step>, b: seq<Step>)
    requires NoCuts(a) && NoCuts(b)
    ensures NoCuts(a + b)
  {
  }

  /** a run without a power cut */
  ghost predicate Ran(s: Sys, steps: seq<Step>, t: Sys) {
    Reaches(AnyCut, s, steps, t) && NoCuts(steps)
  }

  lemma RanStep(s: Sys, step: Step, t: Sys)
    requires Next(s, step, t) && !step.PowerCut?
    ensures Ran(s, [step], t)
  {
    hide Next;
    OneStep(s, step, t);
  }

  lemma RanNone(s: Sys)
    ensures Ran(s, [], s)
  {
  }

  lemma RanOn(s: Sys, a: seq<Step>, u: Sys, b: seq<Step>, t: Sys)
    requires Ran(s, a, u) && Ran(u, b, t)
    ensures Ran(s, a + b, t)
  {
    hide Reaches;
    ReachesOn(s, a, u, b, t);
    NoCutsJoin(a, b);
  }

  lemma {:induction false} RunSound(cuts: Cuts, s: Sys, steps: seq<Step>, t: Sys)
    requires Sound(s) && Reaches(cuts, s, steps, t)
    ensures Sound(t)
    decreases |steps|
  {
    hide Sound, Next, CutOk;
    if steps != [] {
      var u :| Next(s, steps[0], u) && CutOk(cuts, s, steps[0]) && Reaches(cuts, u, steps[1..], t);
      StepSound(s, steps[0], u);
      RunSound(cuts, u, steps[1..], t);
    }
  }

  lemma {:induction false} RunKeeps(s: Sys, steps: seq<Step>, t: Sys)
    requires Inv(s) && Reaches(NewestLeft, s, steps, t)
    ensures Inv(t)
    decreases |steps|
  {
    hide Inv, Next, CutOk;
    if steps != [] {
      var u :| Next(s, steps[0], u) && CutOk(NewestLeft, s, steps[0]) && Reaches(NewestLeft, u, steps[1..], t);
      StepKeeps(s, steps[0], u);
      RunKeeps(u, steps[1..], t);
    }
  }

  /** a new array: nothing written on any member */
  function Made(n: nat, members: set<nat>): Sys {
    Sys(seq(n, _ => U), {}, map[], 0, 0, 0, Idle, map m | m in members :: map[], {}, {}, map[])
  }

  lemma MadeInv(n: nat, members: set<nat>)
    ensures Inv(Made(n, members))
  {
    var s := Made(n, members);
    forall p: nat, pg | Copies(s, p, pg) ensures pg == Zero {
    }
  }

  /** From the array's creation on, through power cuts that leave the newest copies, every row
      let through since its last discard loads as in use. RowSplit says exactly when it does
      without that. */
  lemma EveryCutRemembers(n: nat, members: set<nat>, steps: seq<Step>, t: Sys, imgs: Images, r: nat)
    requires Reaches(NewestLeft, Made(n, members), steps, t) && IsCut(t, imgs) && KeepsNewest(t, imgs) && r in t.wet
    ensures r < |t.states| && !LoadRow(imgs, r).U?
  {
    MadeInv(n, members);
    RunKeeps(Made(n, members), steps, t);
    WetLoadsUsed(t, imgs, r);
  }
}
