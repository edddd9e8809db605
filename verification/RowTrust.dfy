/** What state W may be trusted for: in a run without a power cut, at any moment with no
    whole-stripe write in flight, every stripe of a written row matches its parity -- across
    forced reconstruct-writes, whole-row writes, discards during a pass, interrupted and
    bitmap-limited passes (km/raid_km-rowmap.c:253-337, 371-380, 579-634, 662-692). */
module RowTrust {
  import opened RowMap
  import Arith

  /** stripe k of row r */
  type Stripe = (nat, nat)

  /** a resync or repair: how far it is, whether it marked rows, whether a bitmap lets it skip */
  datatype Pass = NoPass | Pass(pos: nat, marked: bool, limited: bool)

  datatype Rows = Rows(
    states: seq<State>,
    sc: nat,                  // stripes of a row
    good: set<Stripe>,        // parity matches the data
    whole: set<Stripe>,       // a write of all the stripe's data is in flight
    part: set<Stripe>,        // a partial one is
    wrote: set<Stripe>,       // handled since the row was last unused
    pass: Pass)

  datatype Act =
    | WriteRow(r: nat)                    // a write that covers the row
    | WritePart(r: nat, ks: set<nat>)     // one that does not
    | StripeWhole(r: nat, k: nat)         // the stripe is handled with all of its data new
    | StripePart(r: nat, k: nat, rmw: bool)
    | Trim(r: nat)
    | RowWritten(r: nat)                  // a COW in several bios wrote the row whole
    | PassStart(degraded: bool, limited: bool)
    | SyncNext                            // the pass syncs its next stripe
    | SkipUnused                          // ... or skips an unused row
    | SkipClean                           // ... or a bitmap-clean stripe
    | Degrade                             // too many members gone: the pass syncs nothing
    | PassEnd(interrupted: bool)

  function RowStripes(sc: nat, r: nat): set<Stripe> {
    set k: nat | k < sc :: (r, k)
  }

  predicate InRows(s: Rows, r: nat, k: nat) {
    r < |s.states| && k < s.sc
  }

  /** raidkm_rowmap_note_write for one row */
  function Noted(st: State, full: bool): State {
    if full then W else if st.U? then N else st
  }

  function Restated(states: seq<State>, from: State, to: State): seq<State> {
    seq(|states|, r requires 0 <= r < |states| => if states[r] == from then to else states[r])
  }

  /** the stripes before pos, rows one after the other */
  function Before(sc: nat, pos: nat, x: Stripe): bool {
    x.0 * sc + x.1 < pos
  }

  predicate Can(s: Rows, a: Act) {
    match a
    case WriteRow(r) => r < |s.states|
    case WritePart(r, ks) => r < |s.states| && forall k :: k in ks ==> k < s.sc
    case StripeWhole(r, k) => (r, k) in s.whole
    case StripePart(r, k, rmw) => r < |s.states| && (r, k) in s.part && (rmw ==> s.states[r].W?)
    case Trim(r) => r < |s.states|
    case RowWritten(r) => r < |s.states| && RowStripes(s.sc, r) <= s.wrote
    case PassStart(_, _) => s.pass.NoPass?
    case SyncNext => s.pass.Pass? && s.sc > 0 && InRows(s, s.pass.pos / s.sc, s.pass.pos % s.sc)
                     && !s.states[s.pass.pos / s.sc].U?
    case SkipUnused => s.pass.Pass? && s.sc > 0 && InRows(s, s.pass.pos / s.sc, 0) && s.states[s.pass.pos / s.sc].U?
    case SkipClean => s.pass.Pass? && s.pass.limited
    case Degrade => s.pass.Pass?
    case PassEnd(interrupted) => s.pass.Pass? && (interrupted || s.pass.pos >= |s.states| * s.sc)
  }

  function Do(s: Rows, a: Act): Rows
    requires Can(s, a)
  {
    match a
    case WriteRow(r) =>
      s.(states := s.states[r := Noted(s.states[r], true)], whole := s.whole + RowStripes(s.sc, r))
    case WritePart(r, ks) =>
      s.(states := s.states[r := Noted(s.states[r], false)], part := s.part + set k | k in ks :: (r, k))
    case StripeWhole(r, k) =>
      s.(good := s.good + {(r, k)}, whole := s.whole - {(r, k)}, wrote := s.wrote + {(r, k)})
    case StripePart(r, k, rmw) =>
      // a reconstruct-write makes the stripe's parity anew, a read-modify-write keeps what it was
      s.(good := if rmw then s.good else s.good + {(r, k)}, part := s.part - {(r, k)}, wrote := s.wrote + {(r, k)})
    case Trim(r) =>
      s.(states := s.states[r := U], good := s.good - RowStripes(s.sc, r), wrote := s.wrote - RowStripes(s.sc, r))
    case RowWritten(r) =>
      s.(states := if s.states[r].N? || s.states[r].S? then s.states[r := W] else s.states)
    case PassStart(degraded, limited) =>
      if degraded then s.(pass := Pass(0, false, limited))
      else s.(states := Restated(s.states, N, S), pass := Pass(0, true, limited))
    case SyncNext =>
      s.(good := s.good + {(s.pass.pos / s.sc, s.pass.pos % s.sc)}, pass := s.pass.(pos := s.pass.pos + 1))
    case SkipUnused => s.(pass := s.pass.(pos := (s.pass.pos / s.sc + 1) * s.sc))
    case SkipClean => s.(pass := s.pass.(pos := s.pass.pos + 1))
    case Degrade => s.(pass := s.pass.(marked := false))
    case PassEnd(interrupted) =>
      if interrupted || !s.pass.marked then s.(pass := NoPass)
      else if s.pass.limited then s.(states := Restated(s.states, S, N), pass := NoPass)
      else s.(states := Restated(s.states, S, W), pass := NoPass)
  }

  // ---- the invariant -------------------------------------------------------------------------------

  predicate Covered(s: Rows, r: nat, k: nat) {
    (r, k) in s.good || (r, k) in s.whole
  }

  /** a written row's stripes match, or are about to be written whole */
  ghost predicate WrittenOk(s: Rows) {
    forall r: nat, k: nat :: InRows(s, r, k) && s.states[r].W? ==> Covered(s, r, k)
  }

  /** so are those of the rows a pass marked that it is past */
  ghost predicate MarkedOk(s: Rows) {
    s.pass.Pass? && s.pass.marked && !s.pass.limited ==>
      forall r: nat, k: nat ::
        InRows(s, r, k) && s.states[r].S? && Before(s.sc, s.pass.pos, (r, k)) ==> Covered(s, r, k)
  }

  /** and the stripes handled: a read-modify-write is only done to a written row */
  ghost predicate HandledOk(s: Rows) {
    forall r: nat, k: nat :: InRows(s, r, k) && (r, k) in s.wrote ==> Covered(s, r, k)
  }

  ghost predicate Inv(s: Rows) {
    WrittenOk(s) && MarkedOk(s) && HandledOk(s)
  }

  // ---- where a pass is -------------------------------------------------------------------------------

  /** row-major positions: the one of stripe (r, k) */
  lemma PositionIs(sc: nat, pos: nat, r: nat, k: nat)
    requires k < sc && r * sc + k == pos
    ensures r == pos / sc && k == pos % sc
  {
    Arith.DivModUnique(r, k, sc);
  }

  lemma NextStripe(sc: nat, pos: nat, r: nat, k: nat)
    requires k < sc && Before(sc, pos + 1, (r, k))
    ensures Before(sc, pos, (r, k)) || (r == pos / sc && k == pos % sc)
  {
    if r * sc + k == pos {
      PositionIs(sc, pos, r, k);
    }
  }

  lemma NextRow(sc: nat, pos: nat, r: nat, k: nat)
    requires k < sc && Before(sc, (pos / sc + 1) * sc, (r, k))
    ensures Before(sc, pos, (r, k)) || r == pos / sc
  {
    var q := pos / sc;
    if r > q {
      Arith.MulMono(q + 1, r, sc);
    } else if r < q {
      Arith.IndexInBounds(r, k, q, sc);
      assert q * sc <= pos;
    }
  }

  lemma AllBefore(n: nat, sc: nat, pos: nat, r: nat, k: nat)
    requires r < n && k < sc && pos >= n * sc
    ensures Before(sc, pos, (r, k))
  {
    Arith.IndexInBounds(r, k, n, sc);
  }

  // ---- every act ---------------------------------------------------------------------------------------

  lemma WriteKeeps(s: Rows, a: Act)
    requires Inv(s) && Can(s, a) && (a.WriteRow? || a.WritePart? || a.Trim? || a.RowWritten?)
    ensures Inv(Do(s, a))
  {
    hide Before;
    var t := Do(s, a);
    forall r: nat, k: nat | InRows(t, r, k) && t.states[r].W? ensures Covered(t, r, k) {
      assert s.states[r].W? ==> Covered(s, r, k);
      assert (r, k) in RowStripes(s.sc, r);
    }
    if t.pass.Pass? && t.pass.marked && !t.pass.limited {
      forall r: nat, k: nat | InRows(t, r, k) && t.states[r].S? && Before(t.sc, t.pass.pos, (r, k))
        ensures Covered(t, r, k)
      {
        assert s.states[r].S?;
        assert Covered(s, r, k);
      }
    }
  }

  lemma StripeKeeps(s: Rows, a: Act)
    requires Inv(s) && Can(s, a) && (a.StripeWhole? || a.StripePart?)
    ensures Inv(Do(s, a))
  {
    hide Before;
    var t := Do(s, a);
    forall r: nat, k: nat | Covered(s, r, k) ensures Covered(t, r, k) {
    }
  }

  lemma PassMoves(s: Rows, a: Act)
    requires Inv(s) && Can(s, a) && (a.SyncNext? || a.SkipUnused? || a.SkipClean? || a.Degrade?)
    ensures Inv(Do(s, a))
  {
    var t := Do(s, a);
    assert forall r: nat, k: nat :: Covered(s, r, k) ==> Covered(t, r, k);
    if t.pass.marked && !t.pass.limited {
      forall r: nat, k: nat | InRows(t, r, k) && t.states[r].S? && Before(t.sc, t.pass.pos, (r, k))
        ensures Covered(t, r, k)
      {
        hide Before;
        if a.SyncNext? {
          NextStripe(s.sc, s.pass.pos, r, k);
        } else {
          NextRow(s.sc, s.pass.pos, r, k);
        }
      }
    }
  }

  lemma PassStarts(s: Rows, a: Act)
    requires Inv(s) && Can(s, a) && a.PassStart?
    ensures Inv(Do(s, a))
  {
    var t := Do(s, a);
    NothingBefore(s.sc);
    hide Before;
    forall r: nat, k: nat | InRows(t, r, k) ensures Covered(s, r, k) ==> Covered(t, r, k) {
    }
    forall r: nat, k: nat | InRows(t, r, k) && t.states[r].W? ensures Covered(t, r, k) {
      assert s.states[r].W?;
    }
  }

  lemma AllMarked(s: Rows)
    requires Inv(s) && Can(s, PassEnd(false)) && s.pass.marked && !s.pass.limited
    ensures forall r: nat, k: nat :: InRows(s, r, k) && s.states[r].S? ==> Covered(s, r, k)
  {
    forall r: nat, k: nat | InRows(s, r, k) && s.states[r].S? ensures Covered(s, r, k) {
      AllBefore(|s.states|, s.sc, s.pass.pos, r, k);
      hide Before;
    }
  }

  /** the same stripes match, and no pass runs */
  ghost predicate SameStripes(s: Rows, t: Rows) {
    && |t.states| == |s.states| && t.sc == s.sc && t.pass.NoPass?
    && t.good == s.good && t.whole == s.whole && t.wrote == s.wrote
  }

  lemma EndsSame(s: Rows, interrupted: bool)
    requires Can(s, PassEnd(interrupted))
    ensures var t := Do(s, PassEnd(interrupted));
      && SameStripes(s, t)
      && forall r: nat :: r < |t.states| && t.states[r].W? ==>
           s.states[r].W? || (s.states[r].S? && !interrupted && s.pass.marked && !s.pass.limited)
  {
  }

  lemma StillInv(s: Rows, t: Rows)
    requires HandledOk(s) && SameStripes(s, t) && WrittenOk(t)
    ensures Inv(t)
  {
    hide WrittenOk;
    assert forall r: nat, k: nat :: Covered(s, r, k) ==> Covered(t, r, k);
  }

  lemma PassOver(s: Rows, interrupted: bool)
    requires Inv(s) && Can(s, PassEnd(interrupted))
    ensures Inv(Do(s, PassEnd(interrupted)))
  {
    var t := Do(s, PassEnd(interrupted));
    EndsSame(s, interrupted);
    if !interrupted && s.pass.marked && !s.pass.limited {
      AllMarked(s);
    }
    hide Before, Do, Can, HandledOk, MarkedOk;
    forall r: nat, k: nat | InRows(t, r, k) && t.states[r].W? ensures Covered(t, r, k) {
      assert InRows(s, r, k) && Covered(s, r, k);
    }
    StillInv(s, t);
  }

  lemma NothingBefore(sc: nat)
    ensures forall r: nat, k: nat :: !Before(sc, 0, (r, k))
  {
    forall r: nat, k: nat ensures !Before(sc, 0, (r, k)) {
      Arith.MulMono(0, r, sc);
    }
  }

  lemma ActKeeps(s: Rows, a: Act)
    requires Inv(s) && Can(s, a)
    ensures Inv(Do(s, a))
  {
    hide Inv, Do, Can;
    match a {
      case WriteRow(_) | WritePart(_, _) | Trim(_) | RowWritten(_) => WriteKeeps(s, a);
      case StripeWhole(_, _) | StripePart(_, _, _) => StripeKeeps(s, a);
      case SyncNext | SkipUnused | SkipClean | Degrade => PassMoves(s, a);
      case PassStart(_, _) => PassStarts(s, a);
      case PassEnd(interrupted) => PassOver(s, interrupted);
    }
  }

  // ---- runs ------------------------------------------------------------------------------------------------

  predicate CanRun(s: Rows, acts: seq<Act>)
    decreases |acts|
  {
    acts == [] || (Can(s, acts[0]) && CanRun(Do(s, acts[0]), acts[1..]))
  }

  function Run(s: Rows, acts: seq<Act>): Rows
    requires CanRun(s, acts)
    decreases |acts|
  {
    if acts == [] then s else Run(Do(s, acts[0]), acts[1..])
  }

  lemma {:induction false} RunKeeps(s: Rows, acts: seq<Act>)
    requires Inv(s) && CanRun(s, acts)
    ensures Inv(Run(s, acts))
    decreases |acts|
  {
    if acts != [] {
      hide Inv, Can, Do;
      ActKeeps(s, acts[0]);
      RunKeeps(Do(s, acts[0]), acts[1..]);
    }
  }

  // ---- what the acts do to the rows' states ------------------------------------------------------------

  /** The state of each row after a write: written when the write covers the row or the row was,
      else in need of a sync when it was unused, else what it was. */
  lemma WriteStates(s: Rows, a: Act, q: nat)
    requires Can(s, a) && (a.WriteRow? || a.WritePart?) && q < |s.states|
    ensures |Do(s, a).states| == |s.states|
    ensures Do(s, a).states[q] ==
      (if q != a.r then s.states[q]
       else if a.WriteRow? || s.states[q].W? then W
       else if s.states[q].U? then N else s.states[q])
  {
  }

  /** A pass that may write marks the rows in need of a sync, and no others. */
  lemma StartStates(s: Rows, degraded: bool, limited: bool, q: nat)
    requires Can(s, PassStart(degraded, limited)) && q < |s.states|
    ensures var t := Do(s, PassStart(degraded, limited));
      && |t.states| == |s.states| && t.pass == Pass(0, !degraded, limited)
      && t.states[q] == if s.states[q].N? && !degraded then S else s.states[q]
  {
  }

  /** A whole pass that nothing limited makes the rows it marked written; a limited one gives them
      back their state; one that was interrupted, or could not write, leaves them. */
  lemma EndStates(s: Rows, interrupted: bool, q: nat)
    requires Can(s, PassEnd(interrupted)) && q < |s.states|
    ensures var t := Do(s, PassEnd(interrupted));
      && |t.states| == |s.states| && t.pass.NoPass?
      && t.states[q] == if !s.states[q].S? || interrupted || !s.pass.marked then s.states[q]
                        else if s.pass.limited then N else W
  {
  }

  // ---- a scan over unused rows -------------------------------------------------------------------------

  function Skips(n: nat): (acts: seq<Act>)
    ensures |acts| == n && forall i :: 0 <= i < n ==> acts[i] == SkipUnused
  {
    seq(n, _ => SkipUnused)
  }

  lemma OneAct(s: Rows, a: Act)
    requires Can(s, a)
    ensures CanRun(s, [a]) && Run(s, [a]) == Do(s, a)
  {
    assert [a][1..] == [];
  }

  /** where a scan that passes n rows leaves the pass */
  function Passed(s: Rows, n: nat): Rows
    requires s.pass.Pass? && s.sc > 0
  {
    if n == 0 then s else s.(pass := s.pass.(pos := (s.pass.pos / s.sc + n) * s.sc))
  }

  lemma RowStart(r: nat, sc: nat)
    requires sc > 0
    ensures (r * sc) / sc == r
  {
    Arith.DivModUnique(r, 0, sc);
  }

  /** A scan that passes n unused rows is n skips of the machine. */
  lemma {:induction false} SkipsRun(s: Rows, n: nat)
    requires s.pass.Pass? && s.sc > 0 && s.pass.pos / s.sc + n <= |s.states|
    requires forall q: nat :: s.pass.pos / s.sc <= q < s.pass.pos / s.sc + n ==> s.states[q].U?
    ensures CanRun(s, Skips(n)) && Run(s, Skips(n)) == Passed(s, n)
    decreases n
  {
    if n > 0 {
      var row, t := s.pass.pos / s.sc, Do(s, SkipUnused);
      RowStart(row + 1, s.sc);
      assert Can(s, SkipUnused) && t.pass.pos / t.sc == row + 1 && t.states == s.states;
      SkipsRun(t, n - 1);
      assert Skips(n)[1..] == Skips(n - 1) && Skips(n)[0] == SkipUnused;
      hide Can, Do, Skips;
    }
  }

  // ---- a new array ---------------------------------------------------------------------------------------

  /** a new array: every row unused, nothing known of any parity */
  function Fresh(n: nat, sc: nat): Rows {
    Rows(seq(n, _ => U), sc, {}, {}, {}, {}, NoPass)
  }

  /** Whatever runs short of a power cut, whenever no whole-stripe write is in flight every
      stripe of every written row matches its parity. */
  lemma WrittenIsConsistent(n: nat, sc: nat, acts: seq<Act>, r: nat, k: nat)
    requires CanRun(Fresh(n, sc), acts)
    requires var s := Run(Fresh(n, sc), acts); s.whole == {} && InRows(s, r, k) && s.states[r].W?
    ensures (r, k) in Run(Fresh(n, sc), acts).good
  {
    RunKeeps(Fresh(n, sc), acts);
    assert Covered(Run(Fresh(n, sc), acts), r, k);
    hide Run, CanRun, Before;
  }

  // ---- the guards that make it so ----------------------------------------------------------------------------

  /** a row of two stripes, one of them written, and a pass the bitmap let skip both */
  function CleanPass(): Rows {
    Rows([S], 2, {(0, 0)}, {}, {}, {(0, 0)}, Pass(2, true, true))
  }

  lemma OneMore(s: Rows, a: Act, acts: seq<Act>)
    requires Can(s, a) && CanRun(Do(s, a), acts)
    ensures CanRun(s, [a] + acts) && Run(s, [a] + acts) == Run(Do(s, a), acts)
  {
    hide Can, Do;
    assert ([a] + acts)[1..] == acts;
  }

  lemma CleanPassSteps()
    ensures var s1 := Rows([N], 2, {}, {}, {(0, 0)}, {}, NoPass);
      && Can(Fresh(1, 2), WritePart(0, {0})) && Do(Fresh(1, 2), WritePart(0, {0})) == s1
      && Can(s1, StripePart(0, 0, false))
      && Do(s1, StripePart(0, 0, false)) == Rows([N], 2, {(0, 0)}, {}, {}, {(0, 0)}, NoPass)
    ensures var s2 := Rows([N], 2, {(0, 0)}, {}, {}, {(0, 0)}, NoPass);
      && Can(s2, PassStart(false, true)) && Do(s2, PassStart(false, true)) == CleanPass().(pass := Pass(0, true, true))
  {
  }

  lemma PassSkips()
    ensures var s3, s4 := CleanPass().(pass := Pass(0, true, true)), CleanPass().(pass := Pass(1, true, true));
      && Can(s3, SkipClean) && Do(s3, SkipClean) == s4 && Can(s4, SkipClean) && Do(s4, SkipClean) == CleanPass()
  {
  }

  lemma PassEnds()
    ensures Can(CleanPass(), PassEnd(false)) && Do(CleanPass(), PassEnd(false)).states == [N]
  {
  }

  lemma NoMore(s: Rows)
    ensures CanRun(s, []) && Run(s, []) == s
  {
  }

  /** A bitmap-limited pass may end with a marked row of which a stripe does not match: calling it
      written then would be wrong, and is not what the end of such a pass does. */
  lemma LimitedPassProvesNothing()
    ensures exists acts :: CanRun(Fresh(1, 2), acts) && Run(Fresh(1, 2), acts) == CleanPass()
    ensures CleanPass().whole == {} && CleanPass().part == {} && (0, 1) !in CleanPass().good
    ensures Can(CleanPass(), PassEnd(false)) && Do(CleanPass(), PassEnd(false)).states == [N]
  {
    CleanPassSteps();
    PassSkips();
    PassEnds();
    NoMore(CleanPass());
    hide Run, CanRun, Fresh, Do, Can;
    var s1 := Rows([N], 2, {}, {}, {(0, 0)}, {}, NoPass);
    var s2 := Rows([N], 2, {(0, 0)}, {}, {}, {(0, 0)}, NoPass);
    var s3, s4 := CleanPass().(pass := Pass(0, true, true)), CleanPass().(pass := Pass(1, true, true));
    OneMore(s4, SkipClean, []);
    OneMore(s3, SkipClean, [SkipClean] + []);
    OneMore(s2, PassStart(false, true), [SkipClean] + ([SkipClean] + []));
    var tail := [PassStart(false, true)] + ([SkipClean] + ([SkipClean] + []));
    OneMore(s1, StripePart(0, 0, false), tail);
    OneMore(Fresh(1, 2), WritePart(0, {0}), [StripePart(0, 0, false)] + tail);
  }
}
