/** What a power cut may make of the row state map when it left a page's write on some members
    only: exactly which rows which surviving members forget, how rewriting a page heals it, and
    two runs in which a row a member was let write to is forgotten
    (km/raid_km-rowmap.c:136-234, 696-769). */
module RowSplit {
  import opened RowMap

  // ---- exactly when a row is forgotten ----------------------------------------------------------

  /** a good copy of its page that calls the row unused */
  predicate Unused(pg: Pg, r: nat) {
    pg.Good? && (r !in pg.body || pg.body[r].U?)
  }

  /** member k may be left with a copy of the page that does not win over this gen */
  ghost predicate MayYield(s: Sys, k: nat, p: nat, gen: nat)
    requires k in s.disks
  {
    exists pg :: Possible(CellOf(s.disks[k], p), pg) && (pg.Good? ==> pg.gen <= gen)
  }

  ghost function Yielding(s: Sys, k: nat, p: nat, gen: nat): (pg: Pg)
    requires k in s.disks && MayYield(s, k, p, gen)
    ensures Possible(CellOf(s.disks[k], p), pg) && (pg.Good? ==> pg.gen <= gen)
  {
    var pg :| Possible(CellOf(s.disks[k], p), pg) && (pg.Good? ==> pg.gen <= gen);
    pg
  }

  /** m may be left with a copy that calls the row unused and that wins among the members of V */
  ghost predicate MayWin(s: Sys, V: set<nat>, r: nat, m: nat, pg: Pg)
    requires V <= s.disks.Keys
  {
    && m in V && Possible(CellOf(s.disks[m], PageOf(r)), pg) && Unused(pg, r)
    && forall k :: k in V && k != m ==> MayYield(s, k, PageOf(r), pg.gen)
  }

  /** the members of V may forget the row: a copy without it may win, or no copy may be there */
  ghost predicate MayForget(s: Sys, V: set<nat>, r: nat)
    requires V <= s.disks.Keys
  {
    || (exists m, pg :: MayWin(s, V, r, m, pg))
    || (forall m :: m in V ==> Possible(CellOf(s.disks[m], PageOf(r)), Zero))
  }

  /** what member k is left with when page p reads as pg and the others as last written */
  function ImageOf(disk: map<nat, Cell>, p: nat, pg: Pg): map<nat, Pg> {
    (map q | q in disk :: disk[q].cur)[p := pg]
  }

  ghost function ImagesOf(s: Sys, V: set<nat>, p: nat, pick: nat -> Pg): Images
    requires V <= s.disks.Keys
  {
    map k | k in V :: ImageOf(s.disks[k], p, pick(k))
  }

  lemma ImagesAreCut(s: Sys, V: set<nat>, p: nat, pick: nat -> Pg)
    requires V <= s.disks.Keys
    requires forall k :: k in V ==> Possible(CellOf(s.disks[k], p), pick(k))
    ensures var imgs := ImagesOf(s, V, p, pick);
      IsCut(s, imgs) && imgs.Keys == V && forall k :: k in V ==> PgOf(imgs, k, p) == pick(k)
  {
    var imgs := ImagesOf(s, V, p, pick);
    forall m, q: nat | m in imgs ensures Possible(CellOf(s.disks[m], q), PgOf(imgs, m, q)) {
      if q != p && q in s.disks[m] {
        assert PgOf(imgs, m, q) == s.disks[m][q].cur;
      }
    }
  }

  /** the winning copy decides, and copies of one gen are the same */
  lemma WinnerDecides(s: Sys, imgs: Images, r: nat, m: nat)
    requires CopiesAgree(s) && IsCut(s, imgs) && IsBest(imgs, imgs.Keys, PageOf(r), m)
    ensures LoadRow(imgs, r).U? <==> Unused(PgOf(imgs, m, PageOf(r)), r)
  {
    var p := PageOf(r);
    assert AnyGood(imgs, imgs.Keys, p);
    var b := Best(imgs, p);
    CutIsCopy(s, imgs, b, p);
    CutIsCopy(s, imgs, m, p);
    assert PgOf(imgs, b, p) == PgOf(imgs, m, p);
  }

  lemma WinnerForgets(s: Sys, V: set<nat>, r: nat, m: nat, pg: Pg) returns (imgs: Images)
    requires CopiesAgree(s) && V <= s.disks.Keys && MayWin(s, V, r, m, pg)
    ensures IsCut(s, imgs) && imgs.Keys == V && LoadRow(imgs, r).U?
  {
    var p := PageOf(r);
    var pick := (k: nat) => if k == m || k !in V then pg else if MayYield(s, k, p, pg.gen) then Yielding(s, k, p, pg.gen) else pg;
    imgs := ImagesOf(s, V, p, pick);
    ImagesAreCut(s, V, p, pick);
    assert IsBest(imgs, imgs.Keys, p, m);
    WinnerDecides(s, imgs, r, m);
  }

  lemma NothingForgets(s: Sys, V: set<nat>, r: nat) returns (imgs: Images)
    requires V <= s.disks.Keys && forall m :: m in V ==> Possible(CellOf(s.disks[m], PageOf(r)), Zero)
    ensures IsCut(s, imgs) && imgs.Keys == V && LoadRow(imgs, r).U?
  {
    var pick := (k: nat) => Zero;
    imgs := ImagesOf(s, V, PageOf(r), pick);
    ImagesAreCut(s, V, PageOf(r), pick);
  }

  lemma ForgottenMay(s: Sys, imgs: Images, r: nat)
    requires CopiesAgree(s) && IsCut(s, imgs) && LoadRow(imgs, r).U?
    ensures MayForget(s, imgs.Keys, r)
  {
    var p := PageOf(r);
    if AnyGood(imgs, imgs.Keys, p) {
      var b := Best(imgs, p);
      WinnerDecides(s, imgs, r, b);
      forall k | k in imgs && k != b ensures MayYield(s, k, p, PgOf(imgs, b, p).gen) {
        assert Possible(CellOf(s.disks[k], p), PgOf(imgs, k, p));
      }
      assert MayWin(s, imgs.Keys, r, b, PgOf(imgs, b, p));
    } else {
      forall m | m in imgs ensures Possible(CellOf(s.disks[m], p), Zero) {
        assert PgOf(imgs, m, p) == Zero;
        assert Possible(CellOf(s.disks[m], p), PgOf(imgs, m, p));
      }
    }
  }

  /** Exactly when a power cut with these survivors may forget a row. */
  lemma SurvivorsExactly(s: Sys, V: set<nat>, r: nat)
    requires CopiesAgree(s) && V <= s.disks.Keys
    ensures (forall imgs :: IsCut(s, imgs) && imgs.Keys == V ==> !LoadRow(imgs, r).U?) <==> !MayForget(s, V, r)
  {
    if MayForget(s, V, r) {
      if m, pg :| MayWin(s, V, r, m, pg) {
        var imgs := WinnerForgets(s, V, r, m, pg);
      } else {
        var imgs := NothingForgets(s, V, r);
      }
    } else {
      forall imgs | IsCut(s, imgs) && imgs.Keys == V ensures !LoadRow(imgs, r).U? {
        if LoadRow(imgs, r).U? {
          ForgottenMay(s, imgs, r);
        }
      }
    }
  }

  /** In every run, whatever its power cuts left: a row is remembered by every cut with these
      survivors exactly when no copy that calls it unused may win among them and not all of
      them may lack the page. With V all the members this is when none is lost. */
  lemma EveryRunExactly(n: nat, members: set<nat>, steps: seq<Step>, t: Sys, V: set<nat>, r: nat)
    requires Reaches(AnyCut, Made(n, members), steps, t) && V <= t.disks.Keys
    ensures (forall imgs :: IsCut(t, imgs) && imgs.Keys == V ==> !LoadRow(imgs, r).U?) <==> !MayForget(t, V, r)
  {
    MadeInv(n, members);
    RunSound(AnyCut, Made(n, members), steps, t);
    SurvivorsExactly(t, V, r);
  }

  /** every copy any member may be left with has the row, or is damaged */
  ghost predicate AllHave(s: Sys, r: nat) {
    forall pg :: Copies(s, PageOf(r), pg) ==> pg.Bad? || (pg.Good? && !Unused(pg, r))
  }

  /** Any survivors remember the row exactly when every copy of its page has it. */
  lemma AnySurvivorsExactly(s: Sys, r: nat)
    requires CopiesAgree(s)
    ensures (forall imgs :: IsCut(s, imgs) && imgs != map[] ==> !LoadRow(imgs, r).U?) <==> AllHave(s, r)
  {
    var p := PageOf(r);
    if AllHave(s, r) {
      forall imgs | IsCut(s, imgs) && imgs != map[] ensures !LoadRow(imgs, r).U? {
        var m :| m in imgs;
        forall k | k in imgs ensures Copies(s, p, PgOf(imgs, k, p)) {
          CutIsCopy(s, imgs, k, p);
        }
        if AnyGood(imgs, imgs.Keys, p) {
          assert Copies(s, p, PgOf(imgs, Best(imgs, p), p));
        }
      }
    } else {
      var pg :| Copies(s, p, pg) && !(pg.Bad? || (pg.Good? && !Unused(pg, r)));
      var m :| m in s.disks && Possible(CellOf(s.disks[m], p), pg);
      var imgs: Images;
      if pg.Zero? {
        imgs := NothingForgets(s, {m}, r);
      } else {
        assert MayWin(s, {m}, r, m, pg);
        imgs := WinnerForgets(s, {m}, r, m, pg);
      }
      assert m in imgs.Keys;
    }
  }

  // ---- pages whose copies agree -------------------------------------------------------------------

  /** every copy of the page is its newest, or damaged */
  ghost predicate PageCurrent(s: Sys, p: nat) {
    p in s.base ==> forall pg :: Copies(s, p, pg) ==> pg.Bad? || (pg.Good? && pg.gen >= s.base[p])
  }

  ghost predicate AllCurrent(s: Sys) {
    forall p :: p in s.base ==> PageCurrent(s, p)
  }

  /** While that is so any member is enough. */
  lemma AnyMemberSuffices(s: Sys, imgs: Images)
    requires AllCurrent(s) && IsCut(s, imgs) && imgs != map[]
    ensures KeepsNewest(s, imgs)
  {
    forall p | p in s.base ensures KeepsPage(s, imgs, p) {
      var m :| m in imgs;
      forall k | k in imgs ensures Copies(s, p, PgOf(imgs, k, p)) {
        CutIsCopy(s, imgs, k, p);
      }
      assert PageCurrent(s, p);
    }
  }

  /** the members a page is not on its way to any more have taken it */
  ghost predicate LeftTook(s: Sys) {
    IsWriting(s) ==> forall m :: m in s.disks && m !in s.flush.at.left ==>
      CellOf(s.disks[m], s.flush.at.p) == Cell(Good(s.gen, s.flush.at.body), {})
  }

  lemma WrittenCurrent(s: Sys, t: Sys, p: nat)
    requires OnlyWritten(s, t) && PageCurrent(s, p) && t.base == s.base && CountersOk(s)
    ensures PageCurrent(t, p)
  {
    hide Copies;
  }

  /** A page whose write is over and reached some member has one good copy, on every member. */
  lemma PageOverMakesCurrent(s: Sys)
    requires IsWriting(s) && s.flush.at.left == {} && LeftTook(s) && (s.flush.at.tried ==> s.flush.at.took)
    ensures PageCurrent(DoPageOver(s), s.flush.at.p)
    ensures forall pg :: Copies(DoPageOver(s), s.flush.at.p, pg) ==> pg == Good(s.gen, s.flush.at.body)
  {
    var t := DoPageOver(s);
    SameCopies(s, t);
    forall pg | Copies(s, s.flush.at.p, pg) ensures pg == Good(s.gen, s.flush.at.body) {
      var m :| m in s.disks && Possible(CellOf(s.disks[m], s.flush.at.p), pg);
    }
  }

  lemma PageOverKeepsCurrent(s: Sys, p: nat)
    requires IsWriting(s) && s.flush.at.left == {} && LeftTook(s) && PageCurrent(s, p)
    ensures PageCurrent(DoPageOver(s), p)
  {
    SameCopies(s, DoPageOver(s));
    if p == s.flush.at.p && (s.flush.at.tried ==> s.flush.at.took) {
      PageOverMakesCurrent(s);
    }
    hide Copies;
  }

  lemma LeftTookKept(s: Sys, step: Step, t: Sys)
    requires LeftTook(s) && Next(s, step, t)
    ensures LeftTook(t)
  {
    hide IsCut, NewestGen, LoadStates;
  }

  /** A page stays so whatever happens short of a power cut. */
  lemma CurrentKept(s: Sys, step: Step, t: Sys, p: nat)
    requires CountersOk(s) && LeftTook(s) && Next(s, step, t) && !step.PowerCut? && PageCurrent(s, p)
    ensures PageCurrent(t, p)
  {
    match step {
      case Put(m) =>
        PutCopies(s, m);
        hide OnlyWritten, CountersOk;
        WrittenCurrent(s, t, p);
      case Took(m) =>
        PutCopies(s, m);
        hide OnlyWritten, CountersOk;
        WrittenCurrent(s, t, p);
      case Refused(m) =>
        LoseCopies(s, m);
        hide OnlyWritten, CountersOk;
        WrittenCurrent(s, t, p);
      case Lose(m) =>
        LoseCopies(s, m);
        hide OnlyWritten, CountersOk;
        WrittenCurrent(s, t, p);
      case PageOver => PageOverKeepsCurrent(s, p);
      case Note(_, _) | Discard(_) | Restate(_, _, _) | Start | Copy(_) | FlushOver | Release(_) =>
        SameCopies(s, t);
        hide CountersOk, Copies;
    }
  }

  /** with every member back, of every row let through: exactly when none is forgotten */
  lemma AllBackExactly(s: Sys)
    requires CopiesAgree(s)
    ensures (forall imgs, r :: IsCut(s, imgs) && imgs.Keys == s.disks.Keys && r in s.wet ==> !LoadRow(imgs, r).U?)
       <==> (forall r :: r in s.wet ==> !MayForget(s, s.disks.Keys, r))
  {
    forall r | r in s.wet {
      SurvivorsExactly(s, s.disks.Keys, r);
    }
    hide MayForget, IsCut, LoadRow;
  }

  // ---- a flush heals, and runs without a split page ----------------------------------------------

  /** the flush under way has made current every page it is done with */
  ghost predicate Restoring(s: Sys) {
    s.flush.Running? && !s.flush.failed ==>
      forall p :: p in s.base ==> p in s.flush.todo || (IsWriting(s) && p == s.flush.at.p) || PageCurrent(s, p)
  }

  lemma RestoringKept(s: Sys, step: Step, t: Sys)
    requires Sound(s) && LeftTook(s) && Restoring(s) && s.flush.Running? && Next(s, step, t)
    requires !step.PowerCut? && !step.FlushOver?
    ensures Restoring(t) && t.flush.Running?
  {
    assert CountersOk(s);
    forall p | p in t.base && t.flush.Running? && !t.flush.failed
      ensures p in t.flush.todo || (IsWriting(t) && p == t.flush.at.p) || PageCurrent(t, p)
    {
      if PageCurrent(s, p) {
        hide *;
        CurrentKept(s, step, t, p);
      } else if step.PageOver? && p == s.flush.at.p && (s.flush.at.tried ==> s.flush.at.took) {
        PageOverMakesCurrent(s);
      }
      hide Sound, PageCurrent, LeftTook, IsCut;
    }
    hide Sound, PageCurrent, LeftTook, IsCut;
  }

  ghost predicate Within(steps: seq<Step>) {
    forall i :: 0 <= i < |steps| ==> !steps[i].PowerCut? && !steps[i].FlushOver?
  }

  lemma {:induction false} FlushRuns(s: Sys, steps: seq<Step>, t: Sys)
    requires Sound(s) && LeftTook(s) && Restoring(s) && s.flush.Running? && Reaches(AnyCut, s, steps, t) && Within(steps)
    ensures Restoring(t) && LeftTook(t) && t.flush.Running?
    decreases |steps|
  {
    if steps != [] {
      var u :| Next(s, steps[0], u) && CutOk(AnyCut, s, steps[0]) && Reaches(AnyCut, u, steps[1..], t);
      assert !steps[0].PowerCut? && !steps[0].FlushOver?;
      assert Within(steps[1..]);
      hide *;
      RestoringKept(s, steps[0], u);
      LeftTookKept(s, steps[0], u);
      StepSound(s, steps[0], u);
      FlushRuns(u, steps[1..], t);
    }
  }

  /** A flush that takes every page some row relies on, and fails for none, makes all pages
      current again, whatever the last power cut left: from then on any member is enough. */
  lemma FlushRestores(s: Sys, steps: seq<Step>, t: Sys)
    requires Sound(s) && s.flush.Idle? && s.base.Keys <= s.dirty && s.dirty != {}
    requires Reaches(AnyCut, DoStart(s), steps, t) && Within(steps)
    requires t.flush.Running? && t.flush.at.Nothing? && t.flush.todo == {} && !t.flush.failed
    ensures Next(t, FlushOver, DoFlushOver(t)) && AllCurrent(DoFlushOver(t))
  {
    StartKeeps(s);
    var u := DoStart(s);
    assert Restoring(u) && LeftTook(u);
    FlushRuns(u, steps, t);
    SameCopies(t, DoFlushOver(t));
    hide Sound, Reaches, Copies;
  }

  /** The load leaves every page current when the members that came back agree. */
  lemma AgreedLoad(s: Sys, imgs: Images, gen: nat)
    requires IsCut(s, imgs) && Agreed(imgs)
    ensures AllCurrent(DoLoad(s, imgs, gen))
  {
    var t := DoLoad(s, imgs, gen);
    forall p, pg | p in t.base && Copies(t, p, pg) ensures pg.Bad? || (pg.Good? && pg.gen >= t.base[p]) {
      LoadedCopies(s, imgs, gen, p, pg);
      var m :| m in imgs && pg == PgOf(imgs, m, p);
      if AnyGood(imgs, imgs.Keys, p) {
        var b := Best(imgs, p);
        assert Agree(PgOf(imgs, m, p), PgOf(imgs, b, p));
      } else {
        var k :| k in imgs && PgOf(imgs, k, p).Bad?;
        assert Agree(PgOf(imgs, m, p), PgOf(imgs, k, p));
      }
    }
  }

  lemma CurrentStep(s: Sys, step: Step, t: Sys)
    requires Inv(s) && AllCurrent(s) && LeftTook(s) && Next(s, step, t) && CutOk(Unsplit, s, step)
    ensures Inv(t) && AllCurrent(t) && LeftTook(t)
  {
    LeftTookKept(s, step, t);
    if step.PowerCut? {
      AnyMemberSuffices(s, step.imgs);
      AgreedLoad(s, step.imgs, step.gen);
      hide Inv, DoLoad, AllCurrent, LeftTook;
      StepKeeps(s, step, t);
    } else {
      assert CutOk(NewestLeft, s, step) && CountersOk(s);
      BaseStep(s, step, t);
      hide Inv, Sound, LeftTook, PageCurrent, CountersOk, CutOk;
      StepKeeps(s, step, t);
      forall p | p in t.base ensures PageCurrent(t, p) {
        if p in s.base {
          hide Next;
          CurrentKept(s, step, t, p);
        } else {
          PageOverMakesCurrent(s);
        }
      }
    }
  }

  /** only a page's write that reached a member gives rows to rely on it */
  lemma BaseStep(s: Sys, step: Step, t: Sys)
    requires Next(s, step, t) && !step.PowerCut?
    ensures forall p :: p in t.base && p !in s.base ==>
      (step.PageOver? && IsWriting(s) && s.flush.at.left == {} && p == s.flush.at.p
       && t == DoPageOver(s) && (s.flush.at.tried ==> s.flush.at.took))
  {
  }

  lemma {:induction false} UnsplitRun(s: Sys, steps: seq<Step>, t: Sys)
    requires Inv(s) && AllCurrent(s) && LeftTook(s) && Reaches(Unsplit, s, steps, t)
    ensures Inv(t) && AllCurrent(t) && LeftTook(t)
    decreases |steps|
  {
    if steps != [] {
      var u :| Next(s, steps[0], u) && CutOk(Unsplit, s, steps[0]) && Reaches(Unsplit, u, steps[1..], t);
      hide *;
      CurrentStep(s, steps[0], u);
      UnsplitRun(u, steps[1..], t);
    }
  }

  /** From the array's creation on, through power cuts after which the members that come back
      agree on each page: at every power cut, whatever it leaves and whichever members come
      back, every row let through since its last discard loads as in use. */
  lemma UnsplitRunsRemember(n: nat, members: set<nat>, steps: seq<Step>, t: Sys, imgs: Images, r: nat)
    requires Reaches(Unsplit, Made(n, members), steps, t) && IsCut(t, imgs) && imgs != map[] && r in t.wet
    ensures r < |t.states| && !LoadRow(imgs, r).U?
  {
    var s := Made(n, members);
    MadeInv(n, members);
    assert AllCurrent(s) && LeftTook(s);
    hide *;
    UnsplitRun(s, steps, t);
    AnyMemberSuffices(t, imgs);
    WetLoadsUsed(t, imgs, r);
  }

  // ---- and where a power cut split a page ---------------------------------------------------------------------

  function OneRow(st: State): map<nat, State> {
    map[0 := st]
  }

  /** two members, one row noted, its page on the first member only */
  function HalfWritten(): Sys {
    Sys([N], {}, map[0 := 1], 1, 0, 1, Running({}, false, Writing(0, OneRow(N), {2}, true, true)),
        map[1 := map[0 := Cell(Good(1, OneRow(N)), {})], 2 := map[]], {}, {}, map[])
  }

  /** what that power cut leaves */
  function FirstCut(): Images {
    map[1 := map[0 := Good(1, OneRow(N))], 2 := map[]]
  }

  /** ... and what one more, that takes the first member, leaves then */
  function SecondCut(): Images {
    map[2 := map[]]
  }

  function Noted(): Sys {
    DoNote(Made(1, {1, 2}), 0, false)
  }

  lemma HalfWritesIs()
    ensures Noted().dirty == {0} && |Noted().states| == 1
    ensures CanCopy(DoStart(Noted()), 0)
    ensures var s3 := DoCopy(DoStart(Noted()), 0);
      IsWriting(s3) && 1 in s3.disks && 1 in s3.flush.at.left && DoTook(s3, 1) == HalfWritten()
  {
    var s0 := Made(1, {1, 2});
    assert Noted().states == [N] && Body(Noted().states, 0) == OneRow(N);
    assert s0.disks.Keys == {1, 2};
    var s3 := DoCopy(DoStart(Noted()), 0);
    assert s3.flush.at.left - {1} == {2};
    assert PutCell(map[], 0, Cell(Good(1, OneRow(N)), {})) == map[0 := Cell(Good(1, OneRow(N)), {})];
    assert DoTook(s3, 1).disks == HalfWritten().disks;
  }

  /** a run, state by state */
  ghost predicate Chain(states: seq<Sys>, steps: seq<Step>) {
    |states| == |steps| + 1 && forall i :: 0 <= i < |steps| ==> Next(states[i], steps[i], states[i + 1])
  }

  lemma {:induction false} ChainReaches(states: seq<Sys>, steps: seq<Step>)
    requires Chain(states, steps)
    ensures Reaches(AnyCut, states[0], steps, states[|steps|])
    decreases |steps|
  {
    if steps != [] {
      assert Next(states[0], steps[0], states[1]);
      assert Chain(states[1..], steps[1..]);
      ChainReaches(states[1..], steps[1..]);
      hide Next;
    }
  }

  lemma HalfWrites() returns (steps: seq<Step>)
    ensures Reaches(AnyCut, Made(1, {1, 2}), steps, HalfWritten())
  {
    HalfWritesIs();
    var s0, s1 := Made(1, {1, 2}), Noted();
    var s2 := DoStart(s1);
    var s3, s4 := DoCopy(s2, 0), HalfWritten();
    steps := [Note(0, false), Start, Copy(0), Took(1)];
    var states := [s0, s1, s2, s3, s4];
    assert Next(s0, steps[0], s1) && Next(s1, steps[1], s2) && Next(s2, steps[2], s3) && Next(s3, steps[3], s4);
    hide *;
    ChainIs(states, steps);
    ChainReaches(states, steps);
  }

  lemma ChainIs(states: seq<Sys>, steps: seq<Step>)
    requires |states| == |steps| + 1 && forall i :: 0 <= i < |steps| ==> Next(states[i], steps[i], states[i + 1])
    ensures Chain(states, steps)
  {
  }

  lemma FirstLoad()
    ensures IsCut(HalfWritten(), FirstCut()) && NewestGen(FirstCut(), 1)
    ensures DoLoad(HalfWritten(), FirstCut(), 1).states == [N]
    ensures DoLoad(HalfWritten(), FirstCut(), 1).need == map[]
  {
    var imgs := FirstCut();
    assert PgOf(imgs, 1, 0) == Good(1, OneRow(N));
    assert AnyGood(imgs, imgs.Keys, 0);
    assert Best(imgs, 0) == 1;
    assert LoadRow(imgs, 0) == N;
    assert LoadStates(imgs, 1) == [N];
  }

  lemma SecondLoad(t: Sys)
    requires t == DoLoad(HalfWritten(), FirstCut(), 1).(wet := {0})
    ensures IsCut(t, SecondCut()) && LoadRow(SecondCut(), 0) == U
  {
    var imgs := SecondCut();
    assert !AnyGood(imgs, imgs.Keys, 0) && !AnyBad(imgs, 0);
    assert 2 in t.disks && t.disks[2] == Cells(FirstCut()[2]) == map[];
    hide DoLoad;
    assert imgs.Keys == {2};
    forall m, p: nat | m in imgs ensures Possible(CellOf(t.disks[m], p), PgOf(imgs, m, p)) {
      assert m == 2;
    }
  }

  /** A power cut that leaves a page's write on one member only: the load takes the row from
      there and lets its writes through at once, and the other member, left alone after one
      more power cut, calls the row unused. */
  lemma SplitPage() returns (t: Sys)
    ensures exists steps :: Reaches(AnyCut, Made(1, {1, 2}), steps, HalfWritten())
    ensures Next(HalfWritten(), PowerCut(FirstCut(), 1), DoLoad(HalfWritten(), FirstCut(), 1))
    ensures Next(DoLoad(HalfWritten(), FirstCut(), 1), Release(0), t)
    ensures 0 in t.wet && IsCut(t, SecondCut()) && LoadRow(SecondCut(), 0) == U
  {
    hide *;
    var steps := HalfWrites();
    FirstLoad();
    var u := DoLoad(HalfWritten(), FirstCut(), 1);
    t := u.(wet := {0});
    LoadIsNext(u);
    ReleaseIsNext(u, t);
    SecondLoad(t);
  }

  lemma CutIsNext(s: Sys, imgs: Images, gen: nat, t: Sys)
    requires 1 in imgs && IsCut(s, imgs) && NewestGen(imgs, gen) && t == DoLoad(s, imgs, gen)
    ensures Next(s, PowerCut(imgs, gen), t)
  {
    hide IsCut, NewestGen, DoLoad;
  }

  lemma LoadIsNext(u: Sys)
    requires u == DoLoad(HalfWritten(), FirstCut(), 1)
    requires IsCut(HalfWritten(), FirstCut()) && NewestGen(FirstCut(), 1)
    ensures Next(HalfWritten(), PowerCut(FirstCut(), 1), u) && u.wet == {} && u.durable == 0
  {
    assert 1 in FirstCut();
    hide IsCut, NewestGen, LoadStates, BaseGen, FirstCut, Next;
    CutIsNext(HalfWritten(), FirstCut(), 1, u);
  }

  lemma ReleaseIsNext(u: Sys, t: Sys)
    requires u.states == [N] && u.need == map[] && u.wet == {} && t == u.(wet := {0})
    ensures Next(u, Release(0), t) && 0 in t.wet
  {
    assert u.wet + {0} == {0};
  }

  // ---- ... and without losing any member ---------------------------------------------------------

  function TwoRows(a: State, b: State): map<nat, State> {
    map[0 := a, 1 := b]
  }

  function Whole(gen: nat, a: State, b: State): Cell {
    Cell(Good(gen, TwoRows(a, b)), {})
  }

  /** two rows of one page: the first one noted, its page on both members */
  function OneUsed(): Sys {
    Sys([N, U], {}, map[0 := 1], 1, 1, 1, Idle, map[1 := map[0 := Whole(1, N, U)], 2 := map[0 := Whole(1, N, U)]],
        {}, {0}, map[0 := 1])
  }

  /** the second one noted, and its page on the first member only */
  function BothUsed(): Sys {
    Sys([N, N], {}, map[0 := 2], 2, 1, 2, Running({}, false, Writing(0, TwoRows(N, N), {2}, true, true)),
        map[1 := map[0 := Whole(2, N, N)], 2 := map[0 := Whole(1, N, U)]], {}, {0}, map[0 := 1])
  }

  /** both members come back, with what they took */
  function BothBack(): Images {
    map[1 := map[0 := Good(2, TwoRows(N, N))], 2 := map[0 := Good(1, TwoRows(N, U))]]
  }

  /** the array then, once the second row is written to */
  function SecondWet(): Sys {
    Sys([N, N], {}, map[], 0, 0, 2, Idle,
        map[1 := map[0 := Whole(2, N, N)], 2 := map[0 := Whole(1, N, U)]], {1}, {0, 1}, map[0 := 2])
  }

  /** ... and while the first row's page is being rewritten on the first member */
  function Rewriting(): Sys {
    Sys([W, N], {}, map[], 1, 0, 3, Running({}, false, Writing(0, TwoRows(W, N), {1, 2}, false, true)),
        map[1 := map[0 := Cell(Good(3, TwoRows(W, N)), {Good(2, TwoRows(N, N)), Bad})], 2 := map[0 := Whole(1, N, U)]],
        {1}, {0, 1}, map[0 := 2])
  }

  /** both members come back again, the first with that write torn */
  function TornBack(): Images {
    map[1 := map[0 := Bad], 2 := map[0 := Good(1, TwoRows(N, U))]]
  }

  lemma BodyOfTwo(a: State, b: State)
    ensures Body([a, b], 0) == TwoRows(a, b)
  {
  }

  /** member 1, or 2, takes the page being written */
  lemma TwoTake(s: Sys, d1: map<nat, Cell>, d2: map<nat, Cell>)
    requires IsWriting(s) && s.disks == map[1 := d1, 2 := d2]
    ensures var w, c := s.flush.at, Cell(Good(s.gen, s.flush.at.body), {});
      && DoTook(s, 1) == s.(disks := map[1 := d1[w.p := c], 2 := d2],
                            flush := s.flush.(at := w.(left := w.left - {1}, took := true)))
      && DoTook(s, 2) == s.(disks := map[1 := d1, 2 := d2[w.p := c]],
                            flush := s.flush.(at := w.(left := w.left - {2}, took := true)))
  {
    var w, c := s.flush.at, Cell(Good(s.gen, s.flush.at.body), {});
    assert s.disks[1 := d1[w.p := c]] == map[1 := d1[w.p := c], 2 := d2];
    assert s.disks[2 := d2[w.p := c]] == map[1 := d1, 2 := d2[w.p := c]];
  }

  lemma TwoPut(s: Sys, d1: map<nat, Cell>, d2: map<nat, Cell>)
    requires IsWriting(s) && s.disks == map[1 := d1, 2 := d2]
    ensures var w, c := s.flush.at, CellOf(d1, s.flush.at.p);
      DoPut(s, 1) == s.(disks := map[1 := d1[w.p := Cell(Good(s.gen, w.body), c.may + {c.cur, Bad})], 2 := d2])
  {
    var w, c := s.flush.at, CellOf(d1, s.flush.at.p);
    var d := d1[w.p := Cell(Good(s.gen, w.body), c.may + {c.cur, Bad})];
    assert s.disks[1 := d] == map[1 := d, 2 := d2];
  }

  /** a note, the flush it needs started and its page copied: up to the members */
  function Copying(s: Sys, r: nat, full: bool): Sys
    requires r < |s.states|
  {
    var s1 := DoNote(s, r, full);
    var s2 := DoStart(s1);
    if CanCopy(s2, 0) then DoCopy(s2, 0) else s2
  }

  lemma CopyingRuns(s: Sys, r: nat, full: bool) returns (states: seq<Sys>, steps: seq<Step>)
    requires r < |s.states| && s.flush.Idle? && CanCopy(DoStart(DoNote(s, r, full)), 0)
    ensures steps == [Note(r, full), Start, Copy(0)] && Chain(states, steps)
    ensures states[0] == s && states[3] == Copying(s, r, full)
  {
    var s1 := DoNote(s, r, full);
    var s2 := DoStart(s1);
    var s3 := DoCopy(s2, 0);
    assert s1.flush.Idle?;
    steps := [Note(r, full), Start, Copy(0)];
    states := [s, s1, s2, s3];
    assert Next(s, steps[0], s1) && Next(s1, steps[1], s2) && Next(s2, steps[2], s3);
    hide *;
    ChainIs(states, steps);
  }

  function FirstCopied(): Sys {
    Sys([N, U], {}, map[0 := 1], 1, 0, 1, Running({}, false, Writing(0, TwoRows(N, U), {1, 2}, false, true)),
        map[1 := map[], 2 := map[]], {}, {}, map[])
  }

  lemma FirstCopies() returns (steps: seq<Step>)
    ensures Reaches(AnyCut, Made(2, {1, 2}), steps, FirstCopied())
    ensures NoCuts(steps)
  {
    var s := Made(2, {1, 2});
    var s1 := DoNote(s, 0, false);
    assert s.disks == map[1 := map[], 2 := map[]];
    assert s.disks.Keys == {1, 2};
    assert s1.states == [N, U] && s1.dirty == {0};
    BodyOfTwo(N, U);
    assert Copying(s, 0, false) == FirstCopied();
    var states;
    states, steps := CopyingRuns(s, 0, false);
    hide *;
    ChainReaches(states, steps);
  }

  /** ... on one member, on both, and relied on */
  function FirstTaken(m: nat): Sys {
    var c := map[0 := Whole(1, N, U)];
    if m == 1 then
      FirstCopied().(disks := map[1 := c, 2 := map[]],
                     flush := Running({}, false, Writing(0, TwoRows(N, U), {2}, true, true)))
    else if m == 2 then
      FirstCopied().(disks := map[1 := c, 2 := c],
                     flush := Running({}, false, Writing(0, TwoRows(N, U), {}, true, true)))
    else OneUsed().(durable := 0, flush := Running({}, false, Nothing))
  }

  lemma FirstTakesNext()
    ensures Next(FirstCopied(), Took(1), FirstTaken(1)) && Next(FirstTaken(1), Took(2), FirstTaken(2))
  {
    assert {1, 2} - {1} == {2} && {2} - {2} == {};
    TwoTake(FirstCopied(), map[], map[]);
    TwoTake(FirstTaken(1), map[0 := Whole(1, N, U)], map[]);
  }

  lemma FirstOverNext()
    ensures Next(FirstTaken(2), PageOver, FirstTaken(3)) && Next(FirstTaken(3), FlushOver, OneUsed())
  {
    assert NowSafe(FirstTaken(2), FirstTaken(2).flush.at) == {0};
  }

  lemma FirstTakes() returns (steps: seq<Step>)
    ensures Reaches(AnyCut, FirstCopied(), steps, OneUsed())
    ensures NoCuts(steps)
  {
    steps := [Took(1), Took(2), PageOver, FlushOver];
    assert NoCuts(steps);
    hide *;
    FirstTakesNext();
    FirstOverNext();
    var states := [FirstCopied(), FirstTaken(1), FirstTaken(2), FirstTaken(3), OneUsed()];
    ChainIs(states, steps);
    ChainReaches(states, steps);
  }

  lemma SecondNext()
    ensures OneUsed().flush.Idle? && |OneUsed().states| == 2
    ensures CanCopy(DoStart(DoNote(OneUsed(), 1, false)), 0)
    ensures Next(Copying(OneUsed(), 1, false), Took(1), BothUsed())
  {
    var s := OneUsed();
    var s1 := DoNote(s, 1, false);
    assert s.disks.Keys == {1, 2};
    assert s1.states == [N, N] && s1.dirty == {0};
    BodyOfTwo(N, N);
    var s3 := Copying(s, 1, false);
    assert s3.flush.at.left == {1, 2} && s3.flush.at.body == TwoRows(N, N);
    TwoTake(s3, map[0 := Whole(1, N, U)], map[0 := Whole(1, N, U)]);
    assert {1, 2} - {1} == {2};
    assert map[0 := Whole(1, N, U)][0 := Whole(2, N, N)] == map[0 := Whole(2, N, N)];
  }

  lemma SecondCopies() returns (steps: seq<Step>)
    ensures Reaches(AnyCut, OneUsed(), steps, BothUsed())
    ensures NoCuts(steps)
  {
    assert NoCuts([Note(1, false), Start, Copy(0)] + [Took(1)]);
    hide *;
    SecondNext();
    steps := CopyThen(OneUsed(), 1, false, Took(1), BothUsed());
  }

  lemma CopyThen(s: Sys, r: nat, full: bool, step: Step, t: Sys) returns (steps: seq<Step>)
    requires r < |s.states| && s.flush.Idle? && CanCopy(DoStart(DoNote(s, r, full)), 0)
    requires Next(Copying(s, r, full), step, t)
    ensures steps == [Note(r, full), Start, Copy(0)] + [step] && Reaches(AnyCut, s, steps, t)
  {
    hide *;
    var states, rest := CopyingRuns(s, r, full);
    ChainReaches(states, rest);
    ChainIs([Copying(s, r, full), t], [step]);
    ChainReaches([Copying(s, r, full), t], [step]);
    ReachesOn(s, rest, Copying(s, r, full), [step], t);
    steps := rest + [step];
  }

  lemma BothLoad()
    ensures IsCut(BothUsed(), BothBack()) && NewestGen(BothBack(), 2)
    ensures LoadStates(BothBack(), 2) == [N, N] && BaseGen(BothBack(), 0) == 2
  {
    var imgs := BothBack();
    assert PgOf(imgs, 1, 0) == Good(2, TwoRows(N, N)) && PgOf(imgs, 2, 0) == Good(1, TwoRows(N, U));
    assert AnyGood(imgs, imgs.Keys, 0) && imgs.Keys == {1, 2};
    assert Best(imgs, 0) == 1;
    assert LoadRow(imgs, 0) == N && LoadRow(imgs, 1) == N;
  }

  lemma BothDisks()
    ensures (map m | m in BothBack() :: Cells(BothBack()[m])) == SecondWet().disks
    ensures 1 in BothBack()
  {
    var imgs := BothBack();
    assert Cells(imgs[1]) == map[0 := Whole(2, N, N)];
    assert Cells(imgs[2]) == map[0 := Whole(1, N, U)];
  }

  lemma BothLoaded()
    requires LoadStates(BothBack(), 2) == [N, N] && BaseGen(BothBack(), 0) == 2
    ensures DoLoad(BothUsed(), BothBack(), 2) == SecondWet().(wet := {})
  {
    BothDisks();
    TwoInUse(BothUsed(), BothBack());
    hide LoadStates, BaseGen, Cells, BothBack;
  }

  lemma TwoInUse(s: Sys, imgs: Images)
    requires LoadStates(imgs, 2) == [N, N] && BaseGen(imgs, 0) == 2 && |s.states| == 2
    ensures var t := DoLoad(s, imgs, 2);
      t.states == [N, N] && t.safe == {0, 1} && t.base == map[0 := 2]
  {
    hide LoadStates, BaseGen, Cells;
    assert PageOf(0) == 0 && PageOf(1) == 0;
    assert DoLoad(s, imgs, 2).states == [N, N];
  }

  lemma ReleasedNext()
    ensures Next(SecondWet().(wet := {}), Release(1), SecondWet())
  {
    assert {} + {1} == {1};
  }

  lemma FirstCutAndWrite() returns (steps: seq<Step>)
    ensures Reaches(AnyCut, BothUsed(), steps, SecondWet())
    ensures steps == [PowerCut(BothBack(), 2), Release(1)]
  {
    hide *;
    BothLoad();
    BothLoaded();
    BothDisks();
    ReleasedNext();
    steps := [PowerCut(BothBack(), 2), Release(1)];
    var states := [BothUsed(), SecondWet().(wet := {}), SecondWet()];
    CutIsNext(BothUsed(), BothBack(), 2, SecondWet().(wet := {}));
    ChainIs(states, steps);
    ChainReaches(states, steps);
  }

  lemma RewriteNext()
    ensures SecondWet().flush.Idle? && |SecondWet().states| == 2
    ensures CanCopy(DoStart(DoNote(SecondWet(), 0, true)), 0)
    ensures Next(Copying(SecondWet(), 0, true), Put(1), Rewriting())
  {
    var s := SecondWet();
    var s1 := DoNote(s, 0, true);
    assert s.disks.Keys == {1, 2};
    assert s1.states == [W, N] && s1.dirty == {0};
    BodyOfTwo(W, N);
    var s3 := Copying(s, 0, true);
    assert s3.flush.at.left == {1, 2} && s3.flush.at.body == TwoRows(W, N);
    TwoPut(s3, map[0 := Whole(2, N, N)], map[0 := Whole(1, N, U)]);
    var c := Whole(2, N, N);
    var put := Cell(Good(3, TwoRows(W, N)), {Good(2, TwoRows(N, N)), Bad});
    assert c.may + {c.cur, Bad} == put.may;
    assert map[0 := c][0 := put] == map[0 := put];
  }

  lemma Rewrites() returns (steps: seq<Step>)
    ensures Reaches(AnyCut, SecondWet(), steps, Rewriting())
    ensures NoCuts(steps)
  {
    assert NoCuts([Note(0, true), Start, Copy(0)] + [Put(1)]);
    hide *;
    RewriteNext();
    steps := CopyThen(SecondWet(), 0, true, Put(1), Rewriting());
  }

  lemma TornLoad()
    ensures IsCut(Rewriting(), TornBack()) && LoadRow(TornBack(), 1) == U
  {
    var imgs := TornBack();
    assert PgOf(imgs, 1, 0) == Bad && PgOf(imgs, 2, 0) == Good(1, TwoRows(N, U));
    assert AnyGood(imgs, imgs.Keys, 0);
    assert Best(imgs, 0) == 2;
  }

  /** No member need be lost. A page's write landed on one of two members, both came back, and
      the row it was for is written to at once. The page is then rewritten for another row; a
      power cut tears that write on the first member, both come back again, and the other's
      older copy calls the row unused. */
  lemma TornRewrite() returns (before: seq<Step>, cut: seq<Step>, after: seq<Step>)
    ensures Reaches(AnyCut, Made(2, {1, 2}), before, BothUsed()) && NoCuts(before)
    ensures cut == [PowerCut(BothBack(), 2), Release(1)] && BothBack().Keys == BothUsed().disks.Keys
    ensures Reaches(AnyCut, BothUsed(), cut, SecondWet())
    ensures Reaches(AnyCut, SecondWet(), after, Rewriting()) && NoCuts(after)
    ensures 1 in Rewriting().wet
    ensures IsCut(Rewriting(), TornBack()) && TornBack().Keys == Rewriting().disks.Keys
    ensures LoadRow(TornBack(), 1) == U
  {
    hide *;
    TornLoad();
    TornShapes();
    var a := FirstCopies();
    var b := FirstTakes();
    var c := SecondCopies();
    cut := FirstCutAndWrite();
    after := Rewrites();
    ReachesOn(Made(2, {1, 2}), a, FirstCopied(), b, OneUsed());
    ReachesOn(Made(2, {1, 2}), a + b, OneUsed(), c, BothUsed());
    NoCutsJoin(a, b);
    NoCutsJoin(a + b, c);
    before := a + b + c;
  }

  lemma TornShapes()
    ensures BothBack().Keys == BothUsed().disks.Keys && TornBack().Keys == Rewriting().disks.Keys
    ensures 1 in Rewriting().wet
  {
    assert BothBack().Keys == {1, 2} == BothUsed().disks.Keys;
    assert TornBack().Keys == {1, 2} == Rewriting().disks.Keys;
  }
}
