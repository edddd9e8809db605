/** Runs of the declustered journal over the members: assignments are armed,
    copied and retired by strict writes that every live member must accept, the
    population mark and completion by lax ones that may miss or tear members.
    A strict write that fails or is cut short leaves blocks behind that are not
    of the assignments in force; the runs keep account of who holds one.  Any
    other member that is elected restores the assignments in force. */
module DclElection {
  import opened Counting
  import opened DclJournal

  /** a member's slot: torn, or the block built from a state of the array */
  datatype Disk = Torn | Wrote(c: Conf)

  /** wrong: the members whose block a write that did not end left at odds with the others */
  datatype Sys = Sys(conf: Conf, mark: nat, disks: seq<Disk>, live: set<nat>, wrong: set<nat>)

  // ---- transitions of the assignments ----

  function SparesOf(reb: seq<Reb>): set<nat> {
    if reb == [] then {} else SparesOf(reb[..|reb| - 1]) + {reb[|reb| - 1].spare}
  }

  lemma {:induction false} SparesFew(reb: seq<Reb>)
    ensures |SparesOf(reb)| <= |reb|
    ensures forall i: nat :: i < |reb| ==> reb[i].spare in SparesOf(reb)
    ensures forall j :: j in SparesOf(reb) ==> exists i: nat :: i < |reb| && reb[i].spare == j
  {
    if reb != [] {
      var init := reb[..|reb| - 1];
      SparesFew(init);
      forall j | j in SparesOf(init)
        ensures exists i: nat :: i < |reb| && reb[i].spare == j
      {
        var i: nat :| i < |init| && init[i].spare == j;
        assert reb[i].spare == j;
      }
      assert reb[|reb| - 1].spare == reb[|reb| - 1].spare;
    }
  }

  /** the first spare column with no assignment, as the source looks for it */
  method FreeSpare(c: Conf) returns (j: nat)
    requires |c.reb| < c.geom.spares
    ensures j < c.geom.spares
    ensures forall i: nat :: i < |c.reb| ==> c.reb[i].spare != j
    ensures forall x: nat :: x < j ==> x in SparesOf(c.reb)
  {
    j := 0;
    SparesFew(c.reb);
    while j < c.geom.spares
      invariant j <= c.geom.spares
      invariant forall x: nat :: x < j ==> x in SparesOf(c.reb)
    {
      var taken := IsTaken(c.reb, j);
      if !taken {
        return;
      }
      j := j + 1;
    }
    SmallerSet(Below(j), SparesOf(c.reb));
    assert false;
  }

  method IsTaken(reb: seq<Reb>, j: nat) returns (taken: bool)
    ensures taken <==> j in SparesOf(reb)
    ensures !taken ==> forall i: nat :: i < |reb| ==> reb[i].spare != j
  {
    SparesFew(reb);
    var i: nat := 0;
    while i < |reb| && reb[i].spare != j
      invariant i <= |reb|
      invariant forall x: nat :: x < i ==> reb[x].spare != j
    {
      i := i + 1;
    }
    taken := i < |reb|;
  }

  predicate CanArm(c: Conf, x: nat, j: nat) {
    && c.pop == -1
    && |c.reb| < c.geom.spares
    && x < c.geom.pool
    && j < c.geom.spares
    && (forall i: nat :: i < |c.reb| ==> c.reb[i].disk != x && c.reb[i].spare != j)
  }

  function Armed(c: Conf, x: nat, j: nat): Conf {
    c.(reb := c.reb + [Reb(x, j, Populating)], pop := |c.reb|)
  }

  predicate CanCopy(c: Conf, i: nat) {
    i < |c.reb| && c.pop == -1 && c.reb[i].state == Populated
  }

  function Copied(c: Conf, i: nat): Conf
    requires i < |c.reb|
  {
    c.(reb := c.reb[i := c.reb[i].(state := Copying)], pop := i)
  }

  function Retired(c: Conf): Conf {
    c.(reb := [], pop := -1)
  }

  /** only the entry being copied is retired on its own */
  predicate CanRetireOne(c: Conf, i: nat) {
    i < |c.reb| && c.reb[i].state == Copying
  }

  function RetiredOne(c: Conf, i: nat): Conf
    requires i < |c.reb|
  {
    c.(reb := c.reb[..i] + c.reb[i + 1..], pop := -1)
  }

  predicate CanComplete(c: Conf, mark: nat) {
    0 <= c.pop < |c.reb| && c.reb[c.pop].state == Populating && c.size <= mark
  }

  function Completed(c: Conf): Conf
    requires 0 <= c.pop < |c.reb|
  {
    c.(reb := c.reb[c.pop := c.reb[c.pop].(state := Populated)], pop := -1)
  }

  /** the assignments, as disks on spare columns */
  ghost function PairsOf(c: Conf): set<(nat, nat)> {
    set i: nat | i < |c.reb| :: (c.reb[i].disk, c.reb[i].spare)
  }

  /** What each change does to the assignments: arming adds the one pair, a copy keeps them, the end
      of a copy takes away that pair and no other, retiring takes all away, and completing a
      population keeps them. */
  lemma ChangesAre(md: Array, c: Conf)
    requires ConfOk(md, c)
    ensures forall x: nat, j: nat :: CanArm(c, x, j) ==>
      PairsOf(Armed(c, x, j)) == PairsOf(c) + {(x, j)} && (x, j) !in PairsOf(c)
    ensures forall i: nat :: CanCopy(c, i) ==> PairsOf(Copied(c, i)) == PairsOf(c) && Copied(c, i).pop == i
    ensures forall i: nat :: CanRetireOne(c, i) ==>
      PairsOf(RetiredOne(c, i)) == PairsOf(c) - {(c.reb[i].disk, c.reb[i].spare)} && RetiredOne(c, i).pop == -1
    ensures PairsOf(Retired(c)) == {} && Retired(c).pop == -1
    ensures forall mark: nat :: CanComplete(c, mark) ==>
      PairsOf(Completed(c)) == PairsOf(c) && Completed(c).pop == -1 && Completed(c).reb[c.pop].state == Populated
  {
    forall x: nat, j: nat | CanArm(c, x, j)
      ensures PairsOf(Armed(c, x, j)) == PairsOf(c) + {(x, j)} && (x, j) !in PairsOf(c)
    {
      ArmAdds(c, x, j);
    }
    forall i: nat | CanRetireOne(c, i)
      ensures PairsOf(RetiredOne(c, i)) == PairsOf(c) - {(c.reb[i].disk, c.reb[i].spare)}
    {
      RetireDrops(md, c, i);
    }
    forall i: nat | CanCopy(c, i) ensures PairsOf(Copied(c, i)) == PairsOf(c) {
      SameStatePairs(c, Copied(c, i));
    }
    forall mark: nat | CanComplete(c, mark) ensures PairsOf(Completed(c)) == PairsOf(c) {
      SameStatePairs(c, Completed(c));
    }
    hide ConfOk;
  }

  lemma SameStatePairs(c: Conf, d: Conf)
    requires |d.reb| == |c.reb|
    requires forall i: nat :: i < |c.reb| ==> d.reb[i].disk == c.reb[i].disk && d.reb[i].spare == c.reb[i].spare
    ensures PairsOf(d) == PairsOf(c)
  {
  }

  lemma ArmAdds(c: Conf, x: nat, j: nat)
    requires CanArm(c, x, j)
    ensures PairsOf(Armed(c, x, j)) == PairsOf(c) + {(x, j)} && (x, j) !in PairsOf(c)
  {
    var d := Armed(c, x, j);
    forall pair ensures pair in PairsOf(d) <==> pair in PairsOf(c) + {(x, j)} {
      if pair in PairsOf(c) {
        var i: nat :| i < |c.reb| && (c.reb[i].disk, c.reb[i].spare) == pair;
        assert d.reb[i] == c.reb[i];
      }
      assert d.reb[|c.reb|] == Reb(x, j, Populating);
    }
  }

  /** the entry that goes is the only one with its pair */
  lemma OnePair(md: Array, c: Conf, i: nat, k: nat)
    requires ConfOk(md, c) && i < |c.reb| && k < |c.reb|
    ensures c.reb[k].disk == c.reb[i].disk ==> k == i
  {
    hide GeomFits, ArrayOk;
  }

  predicate Has(reb: seq<Reb>, k: nat, pair: (nat, nat)) {
    k < |reb| && reb[k].disk == pair.0 && reb[k].spare == pair.1
  }

  lemma InPairs(c: Conf, pair: (nat, nat))
    ensures pair in PairsOf(c) <==> exists k: nat :: Has(c.reb, k, pair)
  {
    if k: nat :| Has(c.reb, k, pair) {
      assert (c.reb[k].disk, c.reb[k].spare) == pair;
    }
    if pair in PairsOf(c) {
      var k: nat :| k < |c.reb| && (c.reb[k].disk, c.reb[k].spare) == pair;
      assert Has(c.reb, k, pair);
    }
  }

  /** the entries but the i-th, one after the other */
  lemma LeftOver(c: Conf, i: nat, k: nat)
    requires CanRetireOne(c, i)
    ensures |RetiredOne(c, i).reb| == |c.reb| - 1
    ensures k < |c.reb| - 1 ==> RetiredOne(c, i).reb[k] == c.reb[if k < i then k else k + 1]
  {
  }

  lemma {:induction false} Dropped(md: Array, c: Conf, i: nat, pair: (nat, nat))
    requires ConfOk(md, c) && CanRetireOne(c, i) && pair in PairsOf(RetiredOne(c, i))
    ensures i < |c.reb| && pair in PairsOf(c) && pair != (c.reb[i].disk, c.reb[i].spare)
  {
    var d := RetiredOne(c, i);
    assert i < |c.reb|;
    hide *;
    InPairs(c, pair);
    InPairs(d, pair);
    var k: nat :| Has(d.reb, k, pair);
    HasIs(d.reb, k, pair);
    LeftOver(c, i, k);
    var k': nat := if k < i then k else k + 1;
    OnePair(md, c, i, k');
    HasIs(c.reb, k', pair);
  }

  lemma HasIs(reb: seq<Reb>, k: nat, pair: (nat, nat))
    ensures Has(reb, k, pair) <==> k < |reb| && reb[k].disk == pair.0 && reb[k].spare == pair.1
  {
  }

  lemma {:induction false} Stays(c: Conf, i: nat, pair: (nat, nat))
    requires CanRetireOne(c, i) && pair in PairsOf(c) && pair != (c.reb[i].disk, c.reb[i].spare)
    ensures pair in PairsOf(RetiredOne(c, i))
  {
    var d := RetiredOne(c, i);
    assert i < |c.reb|;
    hide *;
    InPairs(c, pair);
    InPairs(d, pair);
    var k: nat :| Has(c.reb, k, pair);
    HasIs(c.reb, k, pair);
    var k': nat := if k <= i then k else k - 1;
    LeftOver(c, i, k');
    HasIs(d.reb, k', pair);
  }

  lemma RetireDrops(md: Array, c: Conf, i: nat)
    requires ConfOk(md, c) && CanRetireOne(c, i)
    ensures PairsOf(RetiredOne(c, i)) == PairsOf(c) - {(c.reb[i].disk, c.reb[i].spare)}
  {
    hide ConfOk, PairsOf, RetiredOne;
    forall pair ensures pair in PairsOf(RetiredOne(c, i)) <==> pair in PairsOf(c) - {(c.reb[i].disk, c.reb[i].spare)} {
      if pair in PairsOf(RetiredOne(c, i)) {
        Dropped(md, c, i, pair);
      }
      if pair in PairsOf(c) && pair != (c.reb[i].disk, c.reb[i].spare) {
        Stays(c, i, pair);
      }
    }
  }

  lemma TransitionsOk(md: Array, c: Conf)
    requires ConfOk(md, c)
    ensures forall x: nat, j: nat :: CanArm(c, x, j) ==> ConfOk(md, Armed(c, x, j))
    ensures forall i: nat :: CanCopy(c, i) ==> ConfOk(md, Copied(c, i))
    ensures ConfOk(md, Retired(c))
    ensures forall mark: nat :: CanComplete(c, mark) ==> ConfOk(md, Completed(c))
  {
  }

  lemma RetiredOneOk(md: Array, c: Conf, i: nat)
    requires ConfOk(md, c) && CanRetireOne(c, i)
    ensures ConfOk(md, RetiredOne(c, i))
  {
    var was, now := c.reb, c.reb[..i] + c.reb[i + 1..];
    assert forall k: nat :: k < |now| ==> now[k] == was[if k < i then k else k + 1];
  }

  // ---- writes ----

  /** the block of the new state, a generation on, as the write takes it */
  function Journalled(c: Conf, mark: nat): Conf {
    c.(gen := c.gen + 1, journalMark := mark)
  }

  function Slots(disks: seq<Disk>, c: Conf, accepted: set<nat>, torn: set<nat>): (s: seq<Disk>)
    ensures |s| == |disks|
    ensures forall i: nat :: i < |disks| ==>
              s[i] == if i in accepted then Wrote(c) else if i in torn then Torn else disks[i]
  {
    seq(|disks|, i requires 0 <= i < |disks| =>
      if i in accepted then Wrote(c) else if i in torn then Torn else disks[i])
  }

  /** a write of state c: who took it, and who was torn by it */
  function Write(s: Sys, c: Conf, mark: nat, accepted: set<nat>, torn: set<nat>): Sys {
    var next := Journalled(c, mark);
    s.(conf := next, mark := mark, disks := Slots(s.disks, next, accepted, torn), wrong := s.wrong - accepted - torn)
  }

  /** a strict write that fails: the state in core goes back, with the mark `back`; the
      generation stays, and so do the blocks written */
  function Failed(s: Sys, c: Conf, mark: nat, back: nat, accepted: set<nat>, torn: set<nat>): Sys {
    var w := Write(s, c, mark, accepted, torn);
    w.(conf := s.conf.(gen := w.conf.gen), mark := back, wrong := w.wrong + accepted)
  }

  // ---- the election ----

  /** member w's block wins among the members of V */
  ghost predicate Wins(s: Sys, V: set<nat>, w: nat) {
    && w in V
    && w < |s.disks|
    && s.disks[w].Wrote?
    && (forall i: nat :: i in V && i < |s.disks| && s.disks[i].Wrote? ==> s.disks[i].c.gen <= s.disks[w].c.gen)
  }

  /** the slots a load over the members of V reads */
  function ReadSlots(disks: seq<Disk>, V: set<nat>): (r: seq<Slot>)
    ensures |r| == |disks|
    ensures forall i: nat :: i < |disks| ==>
              r[i] == if i in V && disks[i].Wrote? then Holding(Built(disks[i].c)) else Unreadable
  {
    seq(|disks|, i requires 0 <= i < |disks| =>
      if i in V && disks[i].Wrote? then Holding(Built(disks[i].c)) else Unreadable)
  }

  /** The load's winner is a winner of the election, and restores its state. */
  lemma LoadElects(md: Array, s: Sys, V: set<nat>, b: Block)
    requires forall i: nat :: i < |s.disks| && s.disks[i].Wrote? ==> ConfOk(md, s.disks[i].c)
    requires DclJournal.Wins(md, ReadSlots(s.disks, V), b)
    ensures exists w: nat :: Wins(s, V, w) && b == Built(s.disks[w].c) && Restore(b) == Kept(s.disks[w].c)
  {
    var r := ReadSlots(s.disks, V);
    var w: nat :| w < |r| && Candidate(md, r[w]) && r[w].block == b;
    forall i: nat | i in V && i < |s.disks| && s.disks[i].Wrote?
      ensures s.disks[i].c.gen <= s.disks[w].c.gen
    {
      BuiltAccepted(md, s.disks[i].c);
      assert Candidate(md, r[i]);
    }
    RoundTrip(md, s.disks[w].c);
    assert Wins(s, V, w);
  }

  function Kept(c: Conf): Restored {
    Restored(c.geom, c.reb, c.pop, c.gen, if c.pop >= 0 then c.journalMark else 0)
  }

  /** the state an array resumes with from what it loaded */
  function Resumed(r: Restored, size: nat): Conf {
    Conf(r.geom, r.reb, r.pop, r.gen, r.mark, size)
  }

  // ---- runs ----

  datatype Act =
    | Grow(to: nat)
    | Checkpoint(accepted: set<nat>, torn: set<nat>)
    | Complete(accepted: set<nat>, torn: set<nat>)
    | Arm(x: nat, j: nat)
    | Copy(i: nat)
    | RetireAll
    | RetireOne(i: nat)
    | Lose(i: nat)
    | Restart(V: set<nat>, w: nat)
    | FailStrict(a: Act, accepted: set<nat>, torn: set<nat>)
    | FailBand(to: nat, accepted: set<nat>, torn: set<nat>)   // the mark of a copied band
    | CutStrict(a: Act, accepted: set<nat>, torn: set<nat>, V: set<nat>, w: nat)   // power goes inside a strict write

  /** the writes that change the assignments, and what each writes */
  predicate Strict(s: Sys, a: Act) {
    match a
    case Arm(x, j) => CanArm(s.conf, x, j)
    case Copy(i) => CanCopy(s.conf, i)
    case RetireAll => true
    case RetireOne(i) => CanRetireOne(s.conf, i)
    case _ => false
  }

  function StrictConf(s: Sys, a: Act): Conf
    requires Strict(s, a)
  {
    match a
    case Arm(x, j) => Armed(s.conf, x, j)
    case Copy(i) => Copied(s.conf, i)
    case RetireAll => Retired(s.conf)
    case RetireOne(i) => RetiredOne(s.conf, i)
  }

  /** a pass that begins starts at row 0 */
  function StrictMark(s: Sys, a: Act): nat {
    if a.Arm? || a.Copy? then 0 else s.mark
  }

  /** a failed arm leaves the mark at row 0, where no pass uses it */
  function BackMark(s: Sys, a: Act): nat {
    if a.Arm? then 0 else s.mark
  }

  /** every member that comes back with a block took this one, or none did */
  ghost predicate AllOrNone(s: Sys, V: set<nat>, accepted: set<nat>) {
    V !! accepted || forall i: nat :: i in V && i < |s.disks| && s.disks[i].Wrote? ==> i in accepted
  }

  /** the members of V without w's block */
  function Others(s: Sys, V: set<nat>, w: nat): set<nat> {
    set i | i in V && !(i < |s.disks| && w < |s.disks| && s.disks[i] == s.disks[w])
  }

  /** the array goes on from w's block; where that was left behind by a write that did not end,
      it is now the other members that are at odds with it */
  function Restarted(s: Sys, V: set<nat>, w: nat): Sys {
    if w < |s.disks| && s.disks[w].Wrote?
    then var c := Resumed(Restore(Built(s.disks[w].c)), s.conf.size);
         s.(conf := c, mark := c.journalMark, live := V, wrong := if w in s.wrong then Others(s, V, w) else s.wrong)
    else s
  }

  /** the restart after a write that power cut short */
  function CutShort(s: Sys, c: Conf, mark: nat, accepted: set<nat>, torn: set<nat>, V: set<nat>, w: nat): Sys {
    var t := Restarted(Write(s, c, mark, accepted, torn), V, w);
    if w in accepted then t.(wrong := V - accepted) else t
  }

  ghost predicate Can(s: Sys, a: Act) {
    match a
    case Grow(to) => s.mark <= to <= s.conf.size
    case Checkpoint(accepted, torn) => accepted <= s.live && torn <= s.live
    case Complete(accepted, torn) => CanComplete(s.conf, s.mark) && accepted <= s.live && torn <= s.live
    case Arm(_, _) => Strict(s, a)
    case Copy(_) => Strict(s, a)
    case RetireAll => true
    case RetireOne(_) => Strict(s, a)
    case Lose(i) => true
    case Restart(V, w) => V <= s.live && Wins(s, V, w)
    case FailStrict(b, accepted, torn) => Strict(s, b) && accepted <= s.live && torn <= s.live
    case FailBand(to, accepted, torn) =>
      0 <= s.conf.pop && s.mark <= to <= s.conf.size && accepted <= s.live && torn <= s.live
    case CutStrict(b, accepted, torn, V, w) =>
      Strict(s, b) && accepted <= s.live && torn <= s.live && V <= s.live
      && Wins(Write(s, StrictConf(s, b), StrictMark(s, b), accepted, torn), V, w)
  }

  /** one step; a strict write that ends well is one every live member took */
  function Do(s: Sys, a: Act): Sys {
    match a
    case Grow(to) => s.(mark := to)
    case Checkpoint(accepted, torn) => Write(s, s.conf, s.mark, accepted, torn)
    case Complete(accepted, torn) =>
      if CanComplete(s.conf, s.mark) then Write(s, Completed(s.conf), s.mark, accepted, torn) else s
    case Arm(_, _) => DoStrict(s, a)
    case Copy(_) => DoStrict(s, a)
    case RetireAll => DoStrict(s, a)
    case RetireOne(_) => DoStrict(s, a)
    case Lose(i) => s.(live := s.live - {i})
    case Restart(V, w) => Restarted(s, V, w)
    case FailStrict(b, accepted, torn) =>
      if Strict(s, b) then Failed(s, StrictConf(s, b), StrictMark(s, b), BackMark(s, b), accepted, torn) else s
    case FailBand(to, accepted, torn) => Failed(s, s.conf, to, s.mark, accepted, torn)
    case CutStrict(b, accepted, torn, V, w) =>
      if Strict(s, b) then CutShort(s, StrictConf(s, b), StrictMark(s, b), accepted, torn, V, w) else s
  }

  function DoStrict(s: Sys, a: Act): Sys {
    if Strict(s, a) then Write(s, StrictConf(s, a), StrictMark(s, a), s.live, {}) else s
  }

  ghost predicate SamePairs(a: seq<Reb>, b: seq<Reb>) {
    |a| == |b| && forall i: nat :: i < |a| ==> a[i].disk == b[i].disk && a[i].spare == b[i].spare
  }

  /** d is an older record of the assignments of c: the same disks on the same
      spare columns, and while a pass is under way no mark past c's */
  ghost predicate Older(d: Conf, c: Conf, mark: nat) {
    && d.geom == c.geom
    && d.size == c.size
    && d.gen <= c.gen
    && SamePairs(d.reb, c.reb)
    && (c.pop >= 0 ==> d.reb == c.reb && d.pop == c.pop && d.journalMark <= mark)
  }

  ghost predicate Holds(s: Sys, i: nat) {
    i in s.live && i < |s.disks| && s.disks[i].Wrote?
  }

  /** every live block is sound, and no newer than the state in core */
  ghost predicate Sound(md: Array, s: Sys, d: Conf) {
    ConfOk(md, d) && d.journalMark <= d.size == s.conf.size && d.gen <= s.conf.gen
  }

  ghost predicate Right(s: Sys, i: nat) {
    Holds(s, i) && i !in s.wrong
  }

  ghost predicate Ordered(s: Sys, i: nat, j: nat) {
    Right(s, i) && Right(s, j) && s.disks[i].c.gen <= s.disks[j].c.gen
  }

  ghost predicate Inv(md: Array, s: Sys) {
    && ConfOk(md, s.conf)
    && s.mark <= s.conf.size
    && (forall i: nat :: Holds(s, i) ==> Sound(md, s, s.disks[i].c))
    && (forall i: nat :: Right(s, i) ==> Older(s.disks[i].c, s.conf, s.mark))
    && (forall i: nat, j: nat :: Ordered(s, i, j) ==> Older(s.disks[i].c, s.disks[j].c, s.disks[j].c.journalMark))
  }

  /** no live member holds a block that is at odds with the state in core */
  ghost predicate NoneWrong(s: Sys) {
    forall i: nat :: Holds(s, i) ==> i !in s.wrong
  }

  // ---- what each step keeps ----

  lemma SameConf(md: Array, c: Conf, mark: nat)
    requires ConfOk(md, c)
    ensures ConfOk(md, Journalled(c, mark))
  {
  }

  /** a write of a state that keeps the assignments may reach any members */
  lemma LaxKeeps(md: Array, s: Sys, c: Conf, accepted: set<nat>, torn: set<nat>)
    requires Inv(md, s) && ConfOk(md, c)
    requires c.geom == s.conf.geom && c.size == s.conf.size && c.gen == s.conf.gen && SamePairs(s.conf.reb, c.reb)
    requires c.pop >= 0 ==> c.reb == s.conf.reb && c.pop == s.conf.pop
    ensures Inv(md, Write(s, c, s.mark, accepted, torn))
  {
    var next, t := Journalled(c, s.mark), Write(s, c, s.mark, accepted, torn);
    hide ConfOk;
    forall i: nat | Right(t, i)
      ensures i in accepted ==> t.disks[i].c == next
      ensures i !in accepted ==> Right(s, i) && t.disks[i] == s.disks[i] && s.disks[i].c.gen < next.gen
      ensures Older(t.disks[i].c, next, s.mark)
    {
    }
    forall i: nat, j: nat | Ordered(t, i, j)
      ensures Older(t.disks[i].c, t.disks[j].c, t.disks[j].c.journalMark)
    {
      if j !in accepted {
        assert Ordered(s, i, j);
      }
    }
    assert ConfOk(md, next) by { SameConf(md, c, s.mark); }
  }

  /** A write that every live member takes heals whatever went before. */
  lemma StrictHeals(md: Array, s: Sys, c: Conf, mark: nat)
    requires ConfOk(md, c) && mark <= c.size
    ensures Inv(md, Write(s, c, mark, s.live, {})) && NoneWrong(Write(s, c, mark, s.live, {}))
  {
  }

  /** only the blocks of live members matter */
  lemma LiveMatters(md: Array, s: Sys, t: Sys)
    requires Inv(md, s) && t.conf == s.conf && t.mark == s.mark
    requires forall i: nat :: Holds(t, i) ==> Holds(s, i) && t.disks[i] == s.disks[i] && (i in s.wrong ==> i in t.wrong)
    ensures Inv(md, t)
  {
    hide ConfOk, Older;
    assert forall x: nat, y: nat :: Ordered(t, x, y) ==> Ordered(s, x, y);
  }

  /** the blocks that a failed write left behind do not matter while they are kept account of */
  lemma FailKeeps(md: Array, s: Sys, c: Conf, mark: nat, back: nat, accepted: set<nat>, torn: set<nat>)
    requires Inv(md, s) && ConfOk(md, c) && c.gen == s.conf.gen && mark <= c.size == s.conf.size
    requires back == s.mark || (s.conf.pop < 0 && back <= s.conf.size)
    ensures Inv(md, Failed(s, c, mark, back, accepted, torn))
  {
    var t := Failed(s, c, mark, back, accepted, torn);
    SameConf(md, c, mark);
    assert ConfOk(md, t.conf);
    hide ConfOk;
    assert forall i: nat :: Right(t, i) ==> Right(s, i) && t.disks[i] == s.disks[i];
    assert forall i: nat, j: nat :: Ordered(t, i, j) ==> Ordered(s, i, j);
  }

  lemma RestartKeeps(md: Array, s: Sys, V: set<nat>, w: nat)
    requires Inv(md, s) && V <= s.live && Wins(s, V, w)
    ensures Inv(md, Restarted(s, V, w))
  {
    RoundTrip(md, s.disks[w].c);
    var t := Restarted(s, V, w);
    hide Restore, Built;
    assert Holds(s, w);
    if w in s.wrong {
      RestartsAlike(md, s, t, s.disks[w].c);
    } else {
      forall i: nat | Right(t, i)
        ensures Older(s.disks[i].c, t.conf, t.mark)
      {
        assert Ordered(s, i, w);
      }
      forall i: nat, j: nat | Ordered(t, i, j)
        ensures Older(s.disks[i].c, s.disks[j].c, s.disks[j].c.journalMark)
      {
        assert Ordered(s, i, j);
      }
    }
  }

  /** a restart after which only the members with the elected block are right */
  lemma RestartsAlike(md: Array, s: Sys, t: Sys, c: Conf)
    requires ConfOk(md, c) && c.journalMark <= c.size
    requires t.conf == c.(journalMark := t.mark) && t.mark == if c.pop >= 0 then c.journalMark else 0
    requires forall i: nat :: Holds(t, i) ==> Sound(md, t, t.disks[i].c)
    requires forall i: nat :: Right(t, i) ==> t.disks[i].c == c
    ensures Inv(md, t)
  {
  }

  /** a cut write that the winner has not is as if it had not begun, but for the blocks torn */
  lemma CutNone(md: Array, s: Sys, c: Conf, mark: nat, accepted: set<nat>, torn: set<nat>, V: set<nat>, w: nat)
    requires Inv(md, s) && V <= s.live && w !in accepted
    requires Wins(Write(s, c, mark, accepted, torn), V, w) && c.size == s.conf.size && c.gen == s.conf.gen
    ensures Inv(md, CutShort(s, c, mark, accepted, torn, V, w))
    ensures forall i: nat :: i in V && i < |s.disks| ==> i !in accepted
  {
    var u := Write(s, c, mark, accepted, torn);
    var x := s.(disks := u.disks, live := V, wrong := u.wrong);
    assert Holds(s, w);
    forall i: nat | i in V && i < |s.disks|
      ensures i !in accepted
    {
      assert u.disks[i].Wrote? ==> u.disks[i].c.gen <= u.disks[w].c.gen;
    }
    hide Older, ConfOk;
    LiveMatters(md, s, x);
    assert Wins(x, V, w);
    RestartKeeps(md, x, V, w);
    assert Others(u, V, w) == Others(x, V, w);
    assert Restarted(u, V, w) == Restarted(x, V, w);
  }

  /** one that the winner has is as if it had ended, for those who have it */
  lemma CutSome(md: Array, s: Sys, c: Conf, mark: nat, accepted: set<nat>, torn: set<nat>, V: set<nat>, w: nat)
    requires Inv(md, s) && V <= s.live && w in accepted
    requires ConfOk(md, c) && mark <= c.size && c.size == s.conf.size && c.gen == s.conf.gen
    requires Wins(Write(s, c, mark, accepted, torn), V, w)
    ensures Inv(md, CutShort(s, c, mark, accepted, torn, V, w))
  {
    var next := Journalled(c, mark);
    SameConf(md, c, mark);
    RoundTrip(md, next);
    var t := CutShort(s, c, mark, accepted, torn, V, w);
    hide Restore, Built, ConfOk, Older;
    assert forall i: nat :: Holds(t, i) && i !in accepted ==> Holds(s, i) && t.disks[i] == s.disks[i];
    RestartsAlike(md, s, t, next);
  }

  lemma CutKeeps(md: Array, s: Sys, b: Act, accepted: set<nat>, torn: set<nat>, V: set<nat>, w: nat)
    requires Inv(md, s) && Can(s, CutStrict(b, accepted, torn, V, w))
    ensures Inv(md, Do(s, CutStrict(b, accepted, torn, V, w)))
  {
    assert ConfOk(md, s.conf) && s.mark <= s.conf.size;
    StrictConfOk(md, s, b);
    hide Inv, ConfOk, Write, Wins, StrictConf, Strict, CutShort;
    var c, mark := StrictConf(s, b), StrictMark(s, b);
    if w in accepted {
      CutSome(md, s, c, mark, accepted, torn, V, w);
    } else {
      CutNone(md, s, c, mark, accepted, torn, V, w);
    }
  }

  lemma StrictConfOk(md: Array, s: Sys, a: Act)
    requires ConfOk(md, s.conf) && Strict(s, a)
    ensures ConfOk(md, StrictConf(s, a)) && StrictConf(s, a).size == s.conf.size
    ensures StrictConf(s, a).geom == s.conf.geom && StrictConf(s, a).gen == s.conf.gen
    ensures BackMark(s, a) == s.mark || s.conf.pop < 0
  {
    TransitionsOk(md, s.conf);
    if a.RetireOne? {
      RetiredOneOk(md, s.conf, a.i);
    }
    hide ConfOk;
  }

  lemma FailActKeeps(md: Array, s: Sys, b: Act, accepted: set<nat>, torn: set<nat>)
    requires Inv(md, s) && Strict(s, b)
    ensures Inv(md, Failed(s, StrictConf(s, b), StrictMark(s, b), BackMark(s, b), accepted, torn))
  {
    assert ConfOk(md, s.conf) && s.mark <= s.conf.size;
    StrictConfOk(md, s, b);
    hide Inv, ConfOk, Failed, Strict, StrictConf;
    FailKeeps(md, s, StrictConf(s, b), StrictMark(s, b), BackMark(s, b), accepted, torn);
  }

  lemma StrictActKeeps(md: Array, s: Sys, a: Act)
    requires Inv(md, s) && Strict(s, a)
    ensures Inv(md, DoStrict(s, a)) && NoneWrong(DoStrict(s, a))
  {
    assert ConfOk(md, s.conf) && s.mark <= s.conf.size;
    StrictConfOk(md, s, a);
    hide Inv, ConfOk, Write, Strict, StrictConf, NoneWrong;
    StrictHeals(md, s, StrictConf(s, a), StrictMark(s, a));
  }

  lemma GrowKeeps(md: Array, s: Sys, to: nat)
    requires Inv(md, s) && s.mark <= to <= s.conf.size
    ensures Inv(md, s.(mark := to))
  {
    var t := s.(mark := to);
    assert forall i: nat :: Holds(t, i) ==> Holds(s, i);
    assert forall i: nat :: Right(t, i) ==> Right(s, i);
    assert forall i: nat, j: nat :: Ordered(t, i, j) ==> Ordered(s, i, j);
    hide ConfOk;
  }

  lemma StepKeeps(md: Array, s: Sys, a: Act)
    requires Inv(md, s) && Can(s, a)
    ensures Inv(md, Do(s, a))
  {
    TransitionsOk(md, s.conf);
    assert ConfOk(md, s.conf) && s.mark <= s.conf.size;
    hide Inv, ConfOk, Write, Failed, Wins, Strict, StrictConf, StrictMark, BackMark, Restarted, CutShort;
    match a
    case Grow(to) => GrowKeeps(md, s, to);
    case Checkpoint(accepted, torn) => LaxKeeps(md, s, s.conf, accepted, torn);
    case Complete(accepted, torn) => LaxKeeps(md, s, Completed(s.conf), accepted, torn);
    case Arm(_, _) => StrictActKeeps(md, s, a);
    case Copy(_) => StrictActKeeps(md, s, a);
    case RetireAll => StrictActKeeps(md, s, a);
    case RetireOne(_) => StrictActKeeps(md, s, a);
    case Lose(i) => LiveMatters(md, s, Do(s, a));
    case Restart(V, w) => RestartKeeps(md, s, V, w);
    case FailStrict(b, accepted, torn) => FailActKeeps(md, s, b, accepted, torn);
    case FailBand(to, accepted, torn) => FailKeeps(md, s, s.conf, to, s.mark, accepted, torn);
    case CutStrict(b, accepted, torn, V, w) => CutKeeps(md, s, b, accepted, torn, V, w);
  }

  /** A pass that begins, a population or a copy, begins at row 0, in core and in every live member's
      block, and any other change leaves the mark. */
  lemma PassBegins(md: Array, s: Sys, a: Act)
    requires Inv(md, s) && Strict(s, a)
    ensures var t := Do(s, a);
      && t.mark == (if a.Arm? || a.Copy? then 0 else s.mark)
      && t.conf.pop == (if a.Arm? then |s.conf.reb| else if a.Copy? then a.i else -1)
      && forall i: nat :: Holds(t, i) ==>
           && t.disks[i].c.gen == s.conf.gen + 1 && t.disks[i].c.journalMark == t.mark
           && t.disks[i].c.reb == t.conf.reb && t.disks[i].c.pop == t.conf.pop
  {
  }

  // ---- every run ----

  /** an array all of whose members have taken one block */
  ghost predicate Started(md: Array, s: Sys) {
    && ConfOk(md, s.conf)
    && s.mark == s.conf.journalMark <= s.conf.size
    && s.wrong == {}
    && forall i: nat :: i < |s.disks| ==> s.disks[i] == Wrote(s.conf)
  }

  lemma StartInv(md: Array, s: Sys)
    requires Started(md, s)
    ensures Inv(md, s) && NoneWrong(s)
  {
    hide ConfOk;
  }

  ghost predicate Allowed(s: Sys, acts: seq<Act>)
    decreases |acts|
  {
    acts == [] || (Can(s, acts[0]) && Allowed(Do(s, acts[0]), acts[1..]))
  }

  function After(s: Sys, acts: seq<Act>): Sys
    decreases |acts|
  {
    if acts == [] then s else After(Do(s, acts[0]), acts[1..])
  }

  lemma {:induction false} RunKeeps(md: Array, s: Sys, acts: seq<Act>)
    requires Inv(md, s) && Allowed(s, acts)
    ensures Inv(md, After(s, acts))
    decreases |acts|
  {
    hide Inv, Can, Do;
    if acts != [] {
      StepKeeps(md, s, acts[0]);
      RunKeeps(md, Do(s, acts[0]), acts[1..]);
    }
  }

  /** the block of r restores the assignments in force, the pass under way and a mark no further
      than the one in core */
  ghost predicate Restores(r: Restored, t: Sys) {
    && SamePairs(r.reb, t.conf.reb)
    && (t.conf.pop >= 0 ==> r.reb == t.conf.reb && r.pop == t.conf.pop && r.mark <= t.mark)
    && (t.conf.pop < 0 && r.pop >= 0 ==> r.mark <= t.conf.size)
  }

  lemma RightRestores(md: Array, t: Sys, i: nat)
    requires Inv(md, t) && Right(t, i)
    ensures Restores(Restore(Built(t.disks[i].c)), t)
  {
    assert Holds(t, i);
    RoundTrip(md, t.disks[i].c);
  }

  /** After any run, strict writes that fail or that power cuts short included: whatever members
      are left to vote, an elected block restores the assignments in force unless it is one
      that such a write left behind, on a member no write has reached since. */
  lemma EveryElection(md: Array, s: Sys, acts: seq<Act>, V: set<nat>, w: nat)
    requires Started(md, s) && Allowed(s, acts)
    requires V <= After(s, acts).live && Wins(After(s, acts), V, w) && w !in After(s, acts).wrong
    ensures Restores(Restore(Built(After(s, acts).disks[w].c)), After(s, acts))
  {
    StartInv(md, s);
    RunKeeps(md, s, acts);
    hide Inv, Allowed, After, Started, Restores, Restore, Built;
    RightRestores(md, After(s, acts), w);
  }

  /** a step that leaves no block behind: no strict write fails, and of one that is cut short all
      members that come back with a block took it, or none did */
  ghost predicate Calm(s: Sys, a: Act) {
    match a
    case FailStrict(_, _, _) => false
    case FailBand(_, _, _) => false
    case CutStrict(b, accepted, torn, V, w) =>
      Strict(s, b) && AllOrNone(Write(s, StrictConf(s, b), StrictMark(s, b), accepted, torn), V, accepted)
    case _ => true
  }

  ghost predicate AllCalm(s: Sys, acts: seq<Act>)
    decreases |acts|
  {
    acts == [] || (Calm(s, acts[0]) && AllCalm(Do(s, acts[0]), acts[1..]))
  }

  lemma CalmWrite(s: Sys, c: Conf, mark: nat, accepted: set<nat>, torn: set<nat>)
    requires NoneWrong(s)
    ensures NoneWrong(Write(s, c, mark, accepted, torn))
  {
    var t := Write(s, c, mark, accepted, torn);
    assert forall i: nat :: Holds(t, i) && i !in accepted ==> Holds(s, i);
  }

  lemma CalmRestart(s: Sys, V: set<nat>, w: nat)
    requires NoneWrong(s) && V <= s.live && Wins(s, V, w)
    ensures NoneWrong(Restarted(s, V, w))
  {
    var t := Restarted(s, V, w);
    assert Holds(s, w);
    assert forall i: nat :: Holds(t, i) ==> Holds(s, i);
  }

  lemma CalmCut(s: Sys, c: Conf, mark: nat, accepted: set<nat>, torn: set<nat>, V: set<nat>, w: nat)
    requires NoneWrong(s) && V <= s.live && Wins(Write(s, c, mark, accepted, torn), V, w)
    requires AllOrNone(Write(s, c, mark, accepted, torn), V, accepted)
    ensures NoneWrong(CutShort(s, c, mark, accepted, torn, V, w))
  {
    var u := Write(s, c, mark, accepted, torn);
    CalmWrite(s, c, mark, accepted, torn);
    CalmRestart(u, V, w);
    var t := Restarted(u, V, w);
    assert forall i: nat :: Holds(t, i) ==> i in V && u.disks[i].Wrote?;
  }

  lemma CalmStep(md: Array, s: Sys, a: Act)
    requires Inv(md, s) && NoneWrong(s) && Can(s, a) && Calm(s, a)
    ensures NoneWrong(Do(s, a))
  {
    hide Inv, NoneWrong, Write, Failed, Wins, Strict, StrictConf, StrictMark, Restarted, CutShort, AllOrNone, DoStrict;
    match a
    case Grow(to) => LessLive(s, Do(s, a));
    case Checkpoint(accepted, torn) => CalmWrite(s, s.conf, s.mark, accepted, torn);
    case Complete(accepted, torn) => CalmWrite(s, Completed(s.conf), s.mark, accepted, torn);
    case Arm(_, _) => StrictActKeeps(md, s, a);
    case Copy(_) => StrictActKeeps(md, s, a);
    case RetireAll => DoRetire(md, s);
    case RetireOne(_) => StrictActKeeps(md, s, a);
    case Lose(i) => LessLive(s, Do(s, a));
    case Restart(V, w) => CalmRestart(s, V, w);
    case CutStrict(b, accepted, torn, V, w) =>
      CalmCut(s, StrictConf(s, b), StrictMark(s, b), accepted, torn, V, w);
  }

  lemma DoRetire(md: Array, s: Sys)
    requires Inv(md, s)
    ensures NoneWrong(DoStrict(s, RetireAll))
  {
    assert Strict(s, RetireAll);
    hide Inv, NoneWrong, Strict, DoStrict;
    StrictActKeeps(md, s, RetireAll);
  }

  lemma LessLive(s: Sys, t: Sys)
    requires NoneWrong(s) && t.disks == s.disks && t.live <= s.live && t.wrong == s.wrong
    ensures NoneWrong(t)
  {
    assert forall i: nat :: Holds(t, i) ==> Holds(s, i);
  }

  /** A calm run leaves no member wrong, so that every election restores the state in force. */
  lemma {:induction false} CalmRun(md: Array, s: Sys, acts: seq<Act>)
    requires Inv(md, s) && NoneWrong(s) && Allowed(s, acts) && AllCalm(s, acts)
    ensures NoneWrong(After(s, acts))
    decreases |acts|
  {
    hide Inv, NoneWrong, Can, Do, Calm;
    if acts != [] {
      StepKeeps(md, s, acts[0]);
      CalmStep(md, s, acts[0]);
      CalmRun(md, Do(s, acts[0]), acts[1..]);
    }
  }

  /** In a calm run from the start of an array, or from any strict write that ends well, whatever
      came before it, every election restores the state in force. */
  lemma CalmElections(md: Array, s: Sys, acts: seq<Act>, V: set<nat>, w: nat)
    requires Started(md, s) || (exists u, a :: HealedBy(md, u, a, s))
    requires Allowed(s, acts) && AllCalm(s, acts) && V <= After(s, acts).live && Wins(After(s, acts), V, w)
    ensures Restores(Restore(Built(After(s, acts).disks[w].c)), After(s, acts))
  {
    hide Inv, NoneWrong, Allowed, AllCalm, After, Restores, Restore, Built;
    if Started(md, s) {
      StartInv(md, s);
    } else {
      var u, a :| HealedBy(md, u, a, s);
      HealedInv(md, u, a, s);
    }
    hide Started, HealedBy;
    RunKeeps(md, s, acts);
    CalmRun(md, s, acts);
    WinnerRight(After(s, acts), V, w);
    RightRestores(md, After(s, acts), w);
  }

  /** s is what a strict write that ended well made of a state that a run came to */
  ghost predicate HealedBy(md: Array, u: Sys, a: Act, s: Sys) {
    Strict(u, a) && s == Do(u, a) && exists s0, acts :: Started(md, s0) && Allowed(s0, acts) && u == After(s0, acts)
  }

  lemma HealedInv(md: Array, u: Sys, a: Act, s: Sys)
    requires HealedBy(md, u, a, s)
    ensures Inv(md, s) && NoneWrong(s)
  {
    var s0, acts :| Started(md, s0) && Allowed(s0, acts) && u == After(s0, acts);
    hide Inv, NoneWrong, Started, Allowed, After, Strict, DoStrict;
    StartInv(md, s0);
    RunKeeps(md, s0, acts);
    StrictActKeeps(md, u, a);
  }

  lemma WinnerRight(s: Sys, V: set<nat>, w: nat)
    requires NoneWrong(s) && V <= s.live && Wins(s, V, w)
    ensures Right(s, w)
  {
    assert Holds(s, w);
  }

  // ---- a strict write that fails ----

  /** After a strict write that failed, members elect the assignments in force
      exactly when none of them had taken the failed block. */
  lemma FailedExactly(md: Array, s: Sys, c: Conf, mark: nat, back: nat, accepted: set<nat>, torn: set<nat>,
                      V: set<nat>, w: nat)
    requires Inv(md, s) && NoneWrong(s) && ConfOk(md, c) && c.gen == s.conf.gen && !SamePairs(c.reb, s.conf.reb)
    requires accepted <= s.live && V <= s.live
    requires forall i: nat :: i in accepted ==> i < |s.disks|
    requires Wins(Failed(s, c, mark, back, accepted, torn), V, w)
    ensures var t := Failed(s, c, mark, back, accepted, torn);
            SamePairs(Restore(Built(t.disks[w].c)).reb, t.conf.reb) <==> V !! accepted
  {
    var t := Failed(s, c, mark, back, accepted, torn);
    var next := Journalled(c, mark);
    assert forall i: nat :: i in accepted ==> t.disks[i] == Wrote(next);
    if w in accepted {
      RoundTrip(md, next);
      assert t.disks[w].c == next;
    } else {
      assert Holds(s, w);
      assert Right(s, w);
      RoundTrip(md, s.disks[w].c);
    }
  }

  // ---- a strict write cut short ----

  /** whoever is left of V, the assignments in force are elected */
  ghost predicate Steady(s: Sys, V: set<nat>) {
    forall W: set<nat>, w: nat :: W <= V && Wins(s, W, w) ==> SamePairs(Restore(Built(s.disks[w].c)).reb, s.conf.reb)
  }

  /** Power goes inside a strict write that changes the assignments.  After the restart every
      later election among those members keeps to one set of assignments exactly when all of
      them that have a block took the new one, or none did. */
  lemma CutExactly(md: Array, s: Sys, c: Conf, mark: nat, accepted: set<nat>, torn: set<nat>, V: set<nat>, w: nat)
    requires Inv(md, s) && NoneWrong(s) && ConfOk(md, c) && mark <= c.size == s.conf.size
    requires c.gen == s.conf.gen && !SamePairs(c.reb, s.conf.reb)
    requires accepted <= s.live && V <= s.live && Wins(Write(s, c, mark, accepted, torn), V, w)
    requires forall i: nat :: i in accepted ==> i < |s.disks|
    ensures var u := Write(s, c, mark, accepted, torn);
      Steady(CutShort(s, c, mark, accepted, torn, V, w), V) <==> AllOrNone(u, V, accepted)
  {
    var u := Write(s, c, mark, accepted, torn);
    var t := CutShort(s, c, mark, accepted, torn, V, w);
    assert t.live == V;
    if AllOrNone(u, V, accepted) {
      CalmCut(s, c, mark, accepted, torn, V, w);
      if w in accepted {
        CutSome(md, s, c, mark, accepted, torn, V, w);
      } else {
        CutNone(md, s, c, mark, accepted, torn, V, w);
      }
      hide CutShort, Write, AllOrNone, NoneWrong, Inv;
      InvSteady(md, t, V);
    } else {
      CutMixed(md, s, c, mark, accepted, torn, V, w);
    }
  }

  lemma InvSteady(md: Array, s: Sys, V: set<nat>)
    requires Inv(md, s) && NoneWrong(s) && V <= s.live
    ensures Steady(s, V)
  {
    hide Inv, NoneWrong;
    forall W: set<nat>, w: nat | W <= V && Wins(s, W, w)
      ensures SamePairs(Restore(Built(s.disks[w].c)).reb, s.conf.reb)
    {
      WinnerRight(s, W, w);
      RightRestores(md, s, w);
    }
  }

  lemma CutMixed(md: Array, s: Sys, c: Conf, mark: nat, accepted: set<nat>, torn: set<nat>, V: set<nat>, w: nat)
    requires Inv(md, s) && NoneWrong(s) && ConfOk(md, c) && !SamePairs(c.reb, s.conf.reb) && c.gen == s.conf.gen
    requires V <= s.live && Wins(Write(s, c, mark, accepted, torn), V, w)
    requires forall i: nat :: i in accepted ==> i < |s.disks|
    requires !AllOrNone(Write(s, c, mark, accepted, torn), V, accepted)
    ensures !Steady(CutShort(s, c, mark, accepted, torn, V, w), V)
  {
    var t := CutShort(s, c, mark, accepted, torn, V, w);
    var i := NotTaken(s, Write(s, c, mark, accepted, torn), V, accepted);
    MixedBlocks(md, s, c, mark, accepted, torn, V, w, i);
    hide *;
    PairsApart(t.disks[i].c.reb, s.conf.reb, c.reb);
    Unsteady(t, V, i);
  }

  lemma NotTaken(s: Sys, u: Sys, V: set<nat>, accepted: set<nat>) returns (i: nat)
    requires !AllOrNone(u, V, accepted) && |u.disks| == |s.disks|
    ensures !(V !! accepted) && i in V && i < |s.disks| && u.disks[i].Wrote? && i !in accepted
  {
    i :| i in V && i < |u.disks| && u.disks[i].Wrote? && i !in accepted;
  }

  lemma Unsteady(t: Sys, V: set<nat>, i: nat)
    requires i in V && i < |t.disks| && t.disks[i].Wrote?
    requires Restore(Built(t.disks[i].c)).reb == t.disks[i].c.reb && !SamePairs(t.disks[i].c.reb, t.conf.reb)
    ensures !Steady(t, V)
  {
    hide SamePairs, Restore, Built;
    assert Wins(t, {i}, i);
  }

  lemma PairsApart(a: seq<Reb>, b: seq<Reb>, c: seq<Reb>)
    requires SamePairs(a, b) && !SamePairs(c, b)
    ensures !SamePairs(a, c)
  {
  }

  /** the newest block is the new one, member i's an older one */
  lemma MixedBlocks(md: Array, s: Sys, c: Conf, mark: nat, accepted: set<nat>, torn: set<nat>, V: set<nat>, w: nat,
                    i: nat)
    requires Inv(md, s) && NoneWrong(s) && ConfOk(md, c) && c.gen == s.conf.gen && V <= s.live
    requires Wins(Write(s, c, mark, accepted, torn), V, w)
    requires forall i: nat :: i in accepted ==> i < |s.disks|
    requires !(V !! accepted) && i in V && i < |s.disks| && i !in accepted
    requires Write(s, c, mark, accepted, torn).disks[i].Wrote?
    ensures var t := CutShort(s, c, mark, accepted, torn, V, w);
      && t.conf.reb == c.reb && i < |t.disks| && t.disks[i].Wrote?
      && SamePairs(t.disks[i].c.reb, s.conf.reb) && Restore(Built(t.disks[i].c)).reb == t.disks[i].c.reb
  {
    var next, u := Journalled(c, mark), Write(s, c, mark, accepted, torn);
    var a: nat :| a in V && a in accepted;
    assert u.disks[a] == Wrote(next);
    assert w !in accepted ==> u.disks[w] == s.disks[w] && Holds(s, w);
    assert u.disks[w] == Wrote(next);
    RoundTrip(md, next);
    assert Right(s, i);
    RoundTrip(md, s.disks[i].c);
  }
}
