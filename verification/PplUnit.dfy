/** Whole runs of the log: the unit any sequence of stripes builds, when its
    entries stay uniform, and how large its partial parity can grow. */
module PplUnit {
  import opened Arith
  import opened PplGeometry
  import opened PplLog
  import opened PplRecover
  import opened PplDecode
  import opened PplClosed
  import opened PplHole

  /** the open unit after logging the stripes into an empty one */
  function UnitAfter(g: Geom, sts: seq<Stripe>): IoUnit
    requires 1 <= g.chunk && 1 <= g.k
  {
    if sts == [] then EMPTY else Logged(g, UnitAfter(g, sts[..|sts| - 1]), sts[|sts| - 1])
  }

  ghost function GroupsAfter(g: Geom, sts: seq<Stripe>): seq<seq<Stripe>>
    requires 1 <= g.chunk && 1 <= g.k
  {
    if sts == [] then []
    else var init := sts[..|sts| - 1];
         Regroup(g, UnitAfter(g, init), GroupsAfter(g, init), sts[|sts| - 1])
  }

  /** Whatever is logged, the unit's entries cut the stripes, in order, into
      matrices of consecutive pages over one range of columns. */
  lemma {:induction false} EveryRunOk(g: Geom, sts: seq<Stripe>)
    requires g.Valid() && AllOk(g, sts)
    ensures UnitOk(g, UnitAfter(g, sts), GroupsAfter(g, sts))
    ensures UnitAfter(g, sts).stripes == sts
  {
    hide *;
    GeomPositive(g);
    if sts != [] {
      var init, sh := sts[..|sts| - 1], sts[|sts| - 1];
      LastOk(g, sts);
      EveryRunOk(g, init);
      LoggedKeeps(g, UnitAfter(g, init), GroupsAfter(g, init), sh);
      RunStep(g, init, sh);
      assert init + [sh] == sts;
    } else {
      RunStart(g);
    }
  }

  lemma GeomPositive(g: Geom)
    requires g.Valid()
    ensures 1 <= g.k && 1 <= g.m && 1 <= g.chunk
  {
  }

  lemma LastOk(g: Geom, sts: seq<Stripe>)
    requires AllOk(g, sts) && sts != []
    ensures AllOk(g, sts[..|sts| - 1]) && StripeOk(g, sts[|sts| - 1])
  {
  }

  lemma RunStart(g: Geom)
    requires g.Valid()
    ensures UnitAfter(g, []) == EMPTY && GroupsAfter(g, []) == []
    ensures UnitOk(g, EMPTY, []) && EMPTY.stripes == []
  {
    assert Join([]) == [] && Partials([]) == 0;
  }

  lemma RunStep(g: Geom, sts: seq<Stripe>, sh: Stripe)
    requires 1 <= g.chunk && 1 <= g.k
    ensures UnitAfter(g, sts + [sh]) == Logged(g, UnitAfter(g, sts), sh)
    ensures GroupsAfter(g, sts + [sh]) == Regroup(g, UnitAfter(g, sts), GroupsAfter(g, sts), sh)
    ensures Logged(g, UnitAfter(g, sts), sh).stripes == UnitAfter(g, sts).stripes + [sh]
  {
    assert (sts + [sh])[..|sts|] == sts;
    hide CanAppend, Extended, FreshEntry;
  }

  // ---- the missing guard ----

  /** A full-stripe write and an entry with partial parity do not mix. */
  predicate SameKind(e: Entry, sh: Stripe) {
    sh.full <==> e.ppSize == 0
  }

  lemma KindOf(g: Geom, e: Entry, rows: seq<Stripe>)
    requires Describes(g, e, rows)
    ensures e.ppSize == 0 <==> Partials(rows) == 0
  {
    if Partials(rows) > 0 {
      Assoc(Partials(rows), g.m, PAGE_SIZE);
      MulMono(1, Partials(rows), g.m * PAGE_SIZE);
    }
  }

  lemma UniformPush(rows: seq<Stripe>, sh: Stripe)
    requires rows != [] && Uniform(rows)
    ensures Uniform(rows + [sh]) <==> (sh.full <==> Partials(rows) == 0)
  {
    PartialsPush(rows, sh);
  }

  lemma UniformOne(sh: Stripe)
    ensures Uniform([sh])
  {
    PartialsPush([], sh);
    assert [] + [sh] == [sh];
  }

  /** A step keeps the entries uniform exactly when a stripe that would join the
      last entry is of that entry's kind. */
  lemma GuardIsExact(g: Geom, io: IoUnit, groups: seq<seq<Stripe>>, sh: Stripe)
    requires UnitOk(g, io, groups) && StripeOk(g, sh) && AllUniform(groups)
    ensures 1 <= g.chunk
    ensures AllUniform(Regroup(g, io, groups, sh))
       <==> (CanAppend(g, io, sh, DataSector(g, sh), sh.count)
             ==> SameKind(io.entries[|io.entries| - 1], sh))
  {
    hide *;
    UnitShape(g, io, groups);
    GeomPositive(g);
    UniformOne(sh);
    RegroupIs(g, io, groups, sh);
    AppendsExactly(g, io, groups, sh);
    var n := |groups|;
    if CanAppend(g, io, sh, DataSector(g, sh), sh.count) {
      LastDescribed(g, io, groups);
      KindOf(g, io.entries[n - 1], groups[n - 1]);
      UniformAt(groups, n - 1);
      UniformPush(groups[n - 1], sh);
      UniformSplit(groups[..n - 1], groups[n - 1] + [sh]);
      UniformPrefix(groups, n - 1);
      KindIs(io.entries[n - 1], sh);
    } else {
      UniformSplit(groups, [sh]);
    }
  }

  lemma KindIs(e: Entry, sh: Stripe)
    ensures SameKind(e, sh) <==> (sh.full <==> e.ppSize == 0)
  {
  }

  lemma RegroupIs(g: Geom, io: IoUnit, groups: seq<seq<Stripe>>, sh: Stripe)
    requires 1 <= g.chunk && UnitOk(g, io, groups)
    ensures CanAppend(g, io, sh, DataSector(g, sh), sh.count) ==> groups != []
    ensures Regroup(g, io, groups, sh)
         == if CanAppend(g, io, sh, DataSector(g, sh), sh.count)
            then groups[..|groups| - 1] + [groups[|groups| - 1] + [sh]]
            else groups + [[sh]]
  {
  }

  lemma LastDescribed(g: Geom, io: IoUnit, groups: seq<seq<Stripe>>)
    requires UnitOk(g, io, groups) && groups != []
    ensures |io.entries| == |groups| && Describes(g, io.entries[|groups| - 1], groups[|groups| - 1])
    ensures groups[|groups| - 1] != []
  {
  }

  lemma UniformAt(groups: seq<seq<Stripe>>, i: nat)
    requires AllUniform(groups) && i < |groups|
    ensures Uniform(groups[i])
  {
  }

  lemma UniformPrefix(groups: seq<seq<Stripe>>, n: nat)
    requires AllUniform(groups) && n <= |groups|
    ensures AllUniform(groups[..n])
  {
  }

  lemma UniformSplit(groups: seq<seq<Stripe>>, rows: seq<Stripe>)
    ensures AllUniform(groups + [rows]) <==> AllUniform(groups) && Uniform(rows)
  {
    if AllUniform(groups + [rows]) {
      assert (groups + [rows])[|groups|] == rows;
      assert forall i: nat :: i < |groups| ==> (groups + [rows])[i] == groups[i];
    }
  }

  /** every stripe that joined an entry was of its kind */
  ghost predicate Guarded(g: Geom, sts: seq<Stripe>)
    requires 1 <= g.chunk && 1 <= g.k
  {
    sts != [] ==>
      var init, sh := sts[..|sts| - 1], sts[|sts| - 1];
      var io := UnitAfter(g, init);
      && Guarded(g, init)
      && (CanAppend(g, io, sh, DataSector(g, sh), sh.count) ==> SameKind(io.entries[|io.entries| - 1], sh))
  }

  lemma GuardedStep(g: Geom, sts: seq<Stripe>, sh: Stripe)
    requires 1 <= g.chunk && 1 <= g.k
    ensures Guarded(g, sts + [sh])
       <==> (Guarded(g, sts)
             && (CanAppend(g, UnitAfter(g, sts), sh, DataSector(g, sh), sh.count)
                 ==> SameKind(UnitAfter(g, sts).entries[|UnitAfter(g, sts).entries| - 1], sh)))
  {
    assert (sts + [sh])[..|sts|] == sts;
    hide CanAppend, SameKind, UnitAfter;
  }

  /** a mixed entry stays mixed */
  lemma MixedStays(g: Geom, io: IoUnit, groups: seq<seq<Stripe>>, sh: Stripe)
    requires UnitOk(g, io, groups) && 1 <= g.chunk && AllUniform(Regroup(g, io, groups, sh))
    ensures AllUniform(groups)
  {
    hide *;
    RegroupIs(g, io, groups, sh);
    var n := |groups|;
    if CanAppend(g, io, sh, DataSector(g, sh), sh.count) {
      UniformSplit(groups[..n - 1], groups[n - 1] + [sh]);
      UniformSplit(groups[..n - 1], groups[n - 1]);
      MixedPush(groups[n - 1], sh);
      assert groups[..n - 1] + [groups[n - 1]] == groups;
    } else {
      UniformSplit(groups, [sh]);
    }
  }

  lemma MixedPush(rows: seq<Stripe>, sh: Stripe)
    requires Uniform(rows + [sh])
    ensures Uniform(rows)
  {
    PartialsPush(rows, sh);
    PartialsBound(rows);
  }

  lemma {:induction false} UniformByGuard(g: Geom, sts: seq<Stripe>)
    requires g.Valid() && AllOk(g, sts) && 1 <= g.chunk && 1 <= g.k
    ensures AllUniform(GroupsAfter(g, sts)) <==> Guarded(g, sts)
  {
    hide *;
    if sts == [] {
      RunStart(g);
      GuardedNone(g);
    } else {
      var init, sh := sts[..|sts| - 1], sts[|sts| - 1];
      LastOk(g, sts);
      assert init + [sh] == sts;
      UniformByGuard(g, init);
      EveryRunOk(g, init);
      RunStep(g, init, sh);
      GuardedStep(g, init, sh);
      var io, groups := UnitAfter(g, init), GroupsAfter(g, init);
      if AllUniform(groups) {
        GuardIsExact(g, io, groups, sh);
      } else if AllUniform(Regroup(g, io, groups, sh)) {
        MixedStays(g, io, groups, sh);
      }
    }
  }

  lemma GuardedNone(g: Geom)
    requires 1 <= g.chunk && 1 <= g.k
    ensures Guarded(g, []) && AllUniform([])
  {
  }

  /** The theorem over whole runs. For any stripes logged into one unit, with
      the partial parity of what they leave alone, recovery repairs every torn
      state of the members exactly when each stripe that joined an entry was of
      its kind. The source joins them without that test. */
  lemma RunClosesExactly(g: Geom, code: Code, members: seq<Member>, unit0: nat, sts: seq<Stripe>, before: Content)
    requires Ready(g, members) && g.Valid() && 1 <= g.chunk && 1 <= g.k && 1 <= unit0 && BlockOk(unit0)
    requires AllOk(g, sts) && Distinct(sts) && AllPresent(members)
    requires Linear(code) && Torn(g, code, sts, before, before)
    ensures AllOk(g, UnitAfter(g, sts).stripes)
    ensures Closes(g, code, members, unit0, UnitAfter(g, sts)) <==> Guarded(g, sts)
  {
    hide *;
    EveryRunOk(g, sts);
    UniformByGuard(g, sts);
    ClosesExactly(g, code, members, unit0, UnitAfter(g, sts), GroupsAfter(g, sts), before);
  }

  /** The mix does happen: with chunks of two pages or more, a write of part of
      every column followed by a full-stripe write of the next page makes one
      entry of both. */
  lemma MixedHappens(g: Geom, first: Stripe, second: Stripe)
    requires g.Valid() && StripeOk(g, first) && StripeOk(g, second)
    requires first.count == g.k && !first.full && second.count == g.k && second.full
    requires second.row == first.row && second.off == first.off + PAGE
    ensures |UnitAfter(g, [first, second]).entries| == 1
    ensures GroupsAfter(g, [first, second]) == [[first, second]] && !AllUniform([[first, second]])
  {
    hide *;
    GeomPositive(g);
    RunStart(g);
    var none: seq<Stripe>, no: seq<seq<Stripe>> := [], [];
    RunStep(g, none, first);
    AppendsExactly(g, EMPTY, no, first);
    RegroupIs(g, EMPTY, no, first);
    assert none + [first] == [first] && no + [[first]] == [[first]];
    RunOfOne(g, first);
    RunStep(g, [first], second);
    assert [first] + [second] == [first, second];
    AppendsExactly(g, UnitAfter(g, [first]), [[first]], second);
    InNext(g, first, second);
    RegroupIs(g, UnitAfter(g, [first]), [[first]], second);
    assert [[first]][..0] + [[first] + [second]] == [[first, second]];
    RunOfTwo(g, first, second);
    MixedTwo(first, second);
  }

  lemma RunOfOne(g: Geom, first: Stripe)
    requires g.Valid() && StripeOk(g, first)
    ensures UnitOk(g, UnitAfter(g, [first]), GroupsAfter(g, [first]))
  {
    EveryRunOk(g, [first]);
  }

  lemma RunOfTwo(g: Geom, first: Stripe, second: Stripe)
    requires g.Valid() && StripeOk(g, first) && StripeOk(g, second)
    ensures |UnitAfter(g, [first, second]).entries| == |GroupsAfter(g, [first, second])|
  {
    EveryRunOk(g, [first, second]);
  }

  lemma InNext(g: Geom, first: Stripe, second: Stripe)
    requires StripeOk(g, first) && StripeOk(g, second)
    requires first.count == g.k == second.count && second.row == first.row && second.off == first.off + PAGE
    ensures InMatrix(first, second, 1)
  {
  }

  lemma MixedTwo(first: Stripe, second: Stripe)
    requires !first.full && second.full
    ensures !AllUniform([[first, second]])
  {
    PartialsPush([first], second);
    PartialsPush([], first);
    assert [] + [first] == [first] && [first] + [second] == [first, second];
    assert !Uniform([[first, second]][0]);
  }

  // ---- room in a unit ----

  /** the stripes all go to one unit: it is not full before any of them */
  ghost predicate OneUnit(g: Geom, space: nat, sts: seq<Stripe>)
    requires 1 <= g.chunk && 1 <= g.k
  {
    forall i: nat :: i < |sts| ==> !IsFull(UnitAfter(g, sts[..i]), space)
  }

  /** pages in a chunk */
  function Pages(g: Geom): nat { g.chunk / PAGE }

  /** the most stripes a unit can take: its last entry gets only one, for a unit
      with all its entries is full */
  function Most(g: Geom): nat { (MAX_ENTRIES - 1) * Pages(g) + 1 }

  lemma {:induction false} EntriesHold(g: Geom, io: IoUnit, groups: seq<seq<Stripe>>, i: nat)
    requires UnitOk(g, io, groups) && i <= |groups|
    ensures |Join(groups[..i])| <= i * Pages(g)
  {
    if i > 0 {
      EntriesHold(g, io, groups, i - 1);
      JoinStep(groups, i - 1);
      assert Describes(g, io.entries[i - 1], groups[i - 1]);
      RowsFit(g, io.entries[i - 1], groups[i - 1]);
      MulSucc(i - 1, Pages(g));
    }
  }

  lemma {:induction false} EntriesCount(g: Geom, space: nat, sts: seq<Stripe>)
    requires 1 <= g.chunk && 1 <= g.k && OneUnit(g, space, sts)
    ensures |UnitAfter(g, sts).entries| <= MAX_ENTRIES
  {
    if sts != [] {
      var init := sts[..|sts| - 1];
      OneUnitInit(g, space, sts);
      EntriesCount(g, space, init);
      hide UnitAfter, OneUnit, CanAppend;
      assert init + [sts[|sts| - 1]] == sts;
      RunStep(g, init, sts[|sts| - 1]);
    }
  }

  lemma OneUnitInit(g: Geom, space: nat, sts: seq<Stripe>)
    requires 1 <= g.chunk && 1 <= g.k && OneUnit(g, space, sts) && sts != []
    ensures OneUnit(g, space, sts[..|sts| - 1]) && !IsFull(UnitAfter(g, sts[..|sts| - 1]), space)
  {
    var init := sts[..|sts| - 1];
    forall i: nat | i < |init|
      ensures !IsFull(UnitAfter(g, init[..i]), space)
    {
      assert init[..i] == sts[..i];
    }
  }

  lemma MostStripes(g: Geom, space: nat, sts: seq<Stripe>)
    requires g.Valid() && AllOk(g, sts) && 1 <= g.chunk && 1 <= g.k && OneUnit(g, space, sts)
    ensures |sts| <= Most(g)
  {
    if sts != [] {
      var init := sts[..|sts| - 1];
      OneUnitInit(g, space, sts);
      EntriesCount(g, space, init);
      LastOk(g, sts);
      EveryRunOk(g, init);
      var io, groups := UnitAfter(g, init), GroupsAfter(g, init);
      UnitShape(g, io, groups);
      EntriesHold(g, io, groups, |groups|);
      assert groups[..|groups|] == groups;
      assert |io.entries| <= MAX_ENTRIES - 1;
      hide *;
      MulMono(|groups|, MAX_ENTRIES - 1, Pages(g));
      MostIs(g);
    }
  }

  lemma MostIs(g: Geom)
    ensures Most(g) == (MAX_ENTRIES - 1) * Pages(g) + 1
  {
  }

  lemma {:induction false} DividesFits(g: Geom, space: nat, sts: seq<Stripe>)
    requires g.Valid() && AllOk(g, sts) && 1 <= g.chunk && 1 <= g.k && OneUnit(g, space, sts)
    requires space % (g.m * PAGE_SIZE) == 0
    ensures UnitAfter(g, sts).ppSize <= space
  {
    if sts != [] {
      var init, sh := sts[..|sts| - 1], sts[|sts| - 1];
      OneUnitInit(g, space, sts);
      LastOk(g, sts);
      EveryRunOk(g, init);
      DividesFits(g, space, init);
      SpaceKept(g, UnitAfter(g, init), GroupsAfter(g, init), sh, space);
    }
  }

  lemma LargeFits(g: Geom, space: nat, sts: seq<Stripe>)
    requires g.Valid() && AllOk(g, sts) && 1 <= g.chunk && 1 <= g.k && OneUnit(g, space, sts)
    requires Most(g) * (g.m * PAGE_SIZE) <= space
    ensures UnitAfter(g, sts).ppSize <= space
  {
    MostStripes(g, space, sts);
    EveryRunOk(g, sts);
    var q := Partials(sts);
    PartialsBound(sts);
    assert UnitAfter(g, sts).ppSize == q * g.m * PAGE_SIZE;
    hide *;
    Assoc(q, g.m, PAGE_SIZE);
    MulMono(q, Most(g), g.m * PAGE_SIZE);
  }

  /** a write of one page of column 0, with the rows spaced so that all of them
      have their first parity on one member */
  function One(g: Geom, e: nat, r: nat): Stripe
    requires 1 <= g.k && 1 <= g.m
  {
    var row := e * g.N();
    Stripe(row, r * PAGE, 0, 1, seq(g.N(), i => i == DataSlot(g, PdIdx(g, row), 0)),
           false, seq(g.m * PAGE, i => 0))
  }

  lemma OneOk(g: Geom, e: nat, r: nat)
    requires g.Valid() && r < Pages(g)
    ensures StripeOk(g, One(g, e, r))
    ensures PdIdx(g, One(g, e, r).row) == PdIdx(g, 0)
  {
    var row := e * g.N();
    var pd := PdIdx(g, row);
    DivModUnique(e, 0, g.N());
    DivModUnique(0, 0, g.N());
    PdInRange(g, row);
    MulMono(r + 1, Pages(g), PAGE);
    forall d: nat | d < g.k
      ensures DataSlot(g, pd, d) < g.N() && (DataSlot(g, pd, d) == DataSlot(g, pd, 0) <==> d == 0)
    {
      DataSlotIndex(g, pd, d);
      DataSlotIndex(g, pd, 0);
    }
  }

  /** one-page writes, filling chunk after chunk */
  function Fill(g: Geom, n: nat): (s: seq<Stripe>)
    requires g.k >= 1 && g.m >= 1 && 1 <= Pages(g)
    ensures |s| == n
  {
    if n == 0 then [] else Fill(g, n - 1) + [One(g, (n - 1) / Pages(g), (n - 1) % Pages(g))]
  }

  lemma PagesPositive(g: Geom)
    requires g.Valid()
    ensures 1 <= Pages(g)
  {
  }

  lemma {:induction false} FillOk(g: Geom, n: nat)
    requires g.Valid() && 1 <= g.k && 1 <= g.m && 1 <= Pages(g)
    ensures AllOk(g, Fill(g, n)) && Partials(Fill(g, n)) == n
  {
    hide *;
    FillUnfold(g, n);
    if n > 0 {
      FillOk(g, n - 1);
      var sh := One(g, (n - 1) / Pages(g), (n - 1) % Pages(g));
      OneOk(g, (n - 1) / Pages(g), (n - 1) % Pages(g));
      PartialsPush(Fill(g, n - 1), sh);
      AllOkPush(g, Fill(g, n - 1), sh);
    }
  }

  lemma AllOkPush(g: Geom, sts: seq<Stripe>, sh: Stripe)
    requires AllOk(g, sts) && StripeOk(g, sh)
    ensures AllOk(g, sts + [sh])
  {
  }

  lemma FillUnfold(g: Geom, n: nat)
    requires 1 <= g.k && 1 <= g.m && 1 <= Pages(g)
    ensures n == 0 ==> Fill(g, n) == [] && AllOk(g, []) && Partials([]) == 0
    ensures n > 0 ==> Fill(g, n) == Fill(g, n - 1) + [One(g, (n - 1) / Pages(g), (n - 1) % Pages(g))]
    ensures n > 0 ==> !One(g, (n - 1) / Pages(g), (n - 1) % Pages(g)).full
  {
  }

  lemma {:induction false} FillPrefix(g: Geom, n: nat, i: nat)
    requires 1 <= g.k && 1 <= g.m && 1 <= Pages(g) && i <= n
    ensures Fill(g, n)[..i] == Fill(g, i)
  {
    if i < n {
      FillPrefix(g, n - 1, i);
      assert Fill(g, n)[..i] == Fill(g, n - 1)[..i];
    }
  }

  /** filling with n = e chunks and r pages makes e + 1 entries */
  ghost predicate Filled(g: Geom, n: nat, e: nat, r: nat)
    requires 1 <= g.k && 1 <= g.m && 1 <= g.chunk && 1 <= Pages(g)
  {
    var groups := GroupsAfter(g, Fill(g, n));
    && n == e * Pages(g) + r
    && 1 <= r <= Pages(g)
    && |groups| == e + 1
    && |groups[e]| == r
    && groups[e][0] == One(g, e, 0)
  }

  lemma FillStep(g: Geom, n: nat, e: nat, r: nat)
    requires g.Valid() && 1 <= g.k && 1 <= g.m && 1 <= g.chunk && 1 <= Pages(g)
    requires Filled(g, n, e, r)
    ensures r < Pages(g) ==> Filled(g, n + 1, e, r + 1)
    ensures r == Pages(g) ==> Filled(g, n + 1, e + 1, 1)
  {
    hide *;
    FilledIs(g, n, e, r);
    var sts := Fill(g, n);
    var io, groups := UnitAfter(g, sts), GroupsAfter(g, sts);
    FillOk(g, n);
    EveryRunOk(g, sts);
    var e', r' := if r < Pages(g) then e else e + 1, if r < Pages(g) then r else 0;
    FillIndex(g, n, e, r);
    var sh := One(g, e', r');
    FillUnfold(g, n + 1);
    OneOk(g, e', r');
    RunStep(g, sts, sh);
    NextOne(g, e, r);
    AppendsExactly(g, io, groups, sh);
    RegroupIs(g, io, groups, sh);
    FilledMake(g, n + 1, e', r' + 1);
  }

  lemma FillIndex(g: Geom, n: nat, e: nat, r: nat)
    requires 1 <= Pages(g) && n == e * Pages(g) + r && 1 <= r <= Pages(g)
    ensures r < Pages(g) ==> n / Pages(g) == e && n % Pages(g) == r && n + 1 == e * Pages(g) + (r + 1)
    ensures r == Pages(g) ==> n / Pages(g) == e + 1 && n % Pages(g) == 0 && n + 1 == (e + 1) * Pages(g) + 1
  {
    if r < Pages(g) {
      DivModUnique(e, r, Pages(g));
    } else {
      MulSucc(e, Pages(g));
      DivModUnique(e + 1, 0, Pages(g));
    }
  }

  lemma FilledIs(g: Geom, n: nat, e: nat, r: nat)
    requires 1 <= g.k && 1 <= g.m && 1 <= g.chunk && 1 <= Pages(g) && Filled(g, n, e, r)
    ensures n == e * Pages(g) + r && 1 <= r <= Pages(g)
    ensures var groups := GroupsAfter(g, Fill(g, n));
            |groups| == e + 1 && |groups[e]| == r && groups[e][0] == One(g, e, 0)
  {
  }

  lemma FilledMake(g: Geom, n: nat, e: nat, r: nat)
    requires 1 <= g.k && 1 <= g.m && 1 <= g.chunk && 1 <= Pages(g)
    requires n == e * Pages(g) + r && 1 <= r <= Pages(g)
    requires var groups := GroupsAfter(g, Fill(g, n));
             |groups| == e + 1 && |groups[e]| == r && groups[e][0] == One(g, e, 0)
    ensures Filled(g, n, e, r)
  {
  }

  lemma FillFirst(g: Geom)
    requires g.Valid() && 1 <= g.k && 1 <= g.m && 1 <= g.chunk && 1 <= Pages(g)
    ensures Filled(g, 1, 0, 1)
  {
    hide *;
    var none: seq<Stripe>, no: seq<seq<Stripe>> := [], [];
    DivModUnique(0, 0, Pages(g));
    FillUnfold(g, 0);
    FillUnfold(g, 1);
    RunStart(g);
    OneOk(g, 0, 0);
    RunStep(g, none, One(g, 0, 0));
    AppendsExactly(g, EMPTY, no, One(g, 0, 0));
    RegroupIs(g, EMPTY, no, One(g, 0, 0));
    assert no + [[One(g, 0, 0)]] == [[One(g, 0, 0)]];
    FilledMake(g, 1, 0, 1);
  }

  lemma {:induction false} FillShape(g: Geom, n: nat) returns (e: nat, r: nat)
    requires g.Valid() && 1 <= g.k && 1 <= g.m && 1 <= g.chunk && 1 <= Pages(g) && 1 <= n
    ensures Filled(g, n, e, r)
  {
    hide *;
    if n == 1 {
      FillFirst(g);
      e, r := 0, 1;
    } else {
      e, r := FillShape(g, n - 1);
      FillStep(g, n - 1, e, r);
      FilledIs(g, n - 1, e, r);
      if r < Pages(g) {
        r := r + 1;
      } else {
        e, r := e + 1, 1;
      }
    }
  }

  /** the next page of the chunk continues the entry, the next chunk does not */
  lemma NextOne(g: Geom, e: nat, r: nat)
    requires 1 <= g.k && 1 <= g.m
    ensures InMatrix(One(g, e, 0), One(g, e, r), r)
    ensures !InMatrix(One(g, e, 0), One(g, e + 1, 0), r)
  {
    MulSucc(e, g.N());
  }

  /** while n stripes need no more than the entries before the last, the unit
      they fill has room for another */
  lemma FillNotFull(g: Geom, space: nat, n: nat)
    requires g.Valid() && 1 <= g.k && 1 <= g.m && 1 <= g.chunk && 1 <= Pages(g)
    requires n <= (MAX_ENTRIES - 1) * Pages(g)
    requires 1 <= space && n * (g.m * PAGE_SIZE) != space
    ensures !IsFull(UnitAfter(g, Fill(g, n)), space)
  {
    var io := UnitAfter(g, Fill(g, n));
    FillOk(g, n);
    EveryRunOk(g, Fill(g, n));
    assert |io.entries| == |GroupsAfter(g, Fill(g, n))|;
    assert (io.ppSize != space && |io.entries| < MAX_ENTRIES) ==> !IsFull(io, space);
    assert n == 0 ==> Fill(g, n) == [] && io == EMPTY;
    hide *;
    FillSize(g, n);
    if n > 0 {
      var e, r := FillShape(g, n);
      FilledIs(g, n, e, r);
      if e >= MAX_ENTRIES - 1 {
        MulMono(MAX_ENTRIES - 1, e, Pages(g));
        assert false;
      }
    }
  }

  /** A space the stripes' m pages do not divide is stepped over. */
  lemma Overruns(g: Geom, space: nat) returns (sts: seq<Stripe>)
    requires g.Valid() && 1 <= space && 1 <= g.k && 1 <= g.m && 1 <= g.chunk && 1 <= Pages(g)
    requires space % (g.m * PAGE_SIZE) != 0 && space < Most(g) * (g.m * PAGE_SIZE)
    ensures AllOk(g, sts) && OneUnit(g, space, sts)
    ensures space < UnitAfter(g, sts).ppSize
  {
    hide *;
    var page := g.m * PAGE_SIZE;
    var q := StepOver(space, page, Most(g));
    MostIs(g);
    sts := Fill(g, q + 1);
    FillOk(g, q + 1);
    forall i: nat | i < |sts|
      ensures !IsFull(UnitAfter(g, sts[..i]), space)
    {
      FillPrefix(g, q + 1, i);
      MulMono(i, q, page);
      FillNotFull(g, space, i);
    }
    OneUnitMake(g, space, sts);
    FillSize(g, q + 1);
  }

  lemma StepOver(space: nat, page: nat, most: nat) returns (q: nat)
    requires 1 <= page && space % page != 0 && space < most * page
    ensures q < most && q * page < space < (q + 1) * page
  {
    q := space / page;
    assert space == q * page + space % page;
    MulSucc(q, page);
    if q >= most {
      MulMono(most, q, page);
      assert false;
    }
  }

  lemma OneUnitMake(g: Geom, space: nat, sts: seq<Stripe>)
    requires 1 <= g.chunk && 1 <= g.k
    requires forall i: nat :: i < |sts| ==> !IsFull(UnitAfter(g, sts[..i]), space)
    ensures OneUnit(g, space, sts)
  {
  }

  lemma FillSize(g: Geom, n: nat)
    requires g.Valid() && 1 <= g.k && 1 <= g.m && 1 <= g.chunk && 1 <= Pages(g)
    ensures UnitAfter(g, Fill(g, n)).ppSize == n * (g.m * PAGE_SIZE)
  {
    FillOk(g, n);
    EveryRunOk(g, Fill(g, n));
    assert UnitAfter(g, Fill(g, n)).ppSize == n * g.m * PAGE_SIZE;
    hide *;
    Assoc(n, g.m, PAGE_SIZE);
  }

  /** every unit keeps its partial parity inside the entry space */
  ghost predicate Bounded(g: Geom, space: nat)
    requires 1 <= g.chunk && 1 <= g.k
  {
    forall sts: seq<Stripe> :: AllOk(g, sts) && OneUnit(g, space, sts) ==> UnitAfter(g, sts).ppSize <= space
  }

  /** The test for a full unit is an equality. It bounds the partial parity
      exactly when the m pages of a stripe divide the space, or the space is so
      large that the entries run out first. */
  lemma RoomExactly(g: Geom, space: nat)
    requires g.Valid() && 1 <= g.k && 1 <= g.m && 1 <= g.chunk && 1 <= space
    ensures Bounded(g, space)
       <==> (space % (g.m * PAGE_SIZE) == 0 || Most(g) * (g.m * PAGE_SIZE) <= space)
  {
    PagesPositive(g);
    if space % (g.m * PAGE_SIZE) == 0 || Most(g) * (g.m * PAGE_SIZE) <= space {
      forall sts: seq<Stripe> | AllOk(g, sts) && OneUnit(g, space, sts)
        ensures UnitAfter(g, sts).ppSize <= space
      {
        if space % (g.m * PAGE_SIZE) == 0 {
          DividesFits(g, space, sts);
        } else {
          LargeFits(g, space, sts);
        }
      }
    } else {
      var sts := Overruns(g, space);
    }
  }
}
