/** The row state map as it is kept: four rows a byte, changed in place under its lock, flushed
    page by page (km/raid_km-rowmap.c:39-68, 179-234, 253-368, 413-461, 596-634).  Each method that
    changes the map or writes it to the members is a run of RowMap's machine: one step, or one
    for each row, page and member. */
module RowStore {
  import opened RowMap
  import RowTrust
  import Arith

  const BODY: nat := 4080
  /** rows one call scans at most */
  const SCAN: nat := 0x100000

  // ---- two bits a row --------------------------------------------------------------------------

  function Code(st: State): bv8 {
    match st
    case U => 0
    case N => 1
    case W => 2
    case S => 3
  }

  function Decode(b: bv8): State {
    if b == 0 then U else if b == 1 then N else if b == 2 then W else S
  }

  function Field(b: bv8, i: nat): bv8
    requires i < 4
  {
    (b >> (2 * i)) & 3
  }

  function WithField(b: bv8, i: nat, st: bv8): bv8
    requires i < 4
  {
    (b & !(3 << (2 * i))) | (st << (2 * i))
  }

  lemma FieldSet(b: bv8, i: nat, st: bv8, j: nat)
    requires i < 4 && j < 4 && st < 4
    ensures Field(WithField(b, i, st), j) == if i == j then st else Field(b, j)
  {
    if i == 0 {
      FieldSet0(b, st, j);
    } else if i == 1 {
      FieldSet1(b, st, j);
    } else if i == 2 {
      FieldSet2(b, st, j);
    } else {
      FieldSet3(b, st, j);
    }
  }

  lemma FieldSet0(b: bv8, st: bv8, j: nat)
    requires j < 4 && st < 4
    ensures Field(WithField(b, 0, st), j) == if j == 0 then st else Field(b, j)
  {
    assert j == 0 || j == 1 || j == 2 || j == 3;
  }

  lemma FieldSet1(b: bv8, st: bv8, j: nat)
    requires j < 4 && st < 4
    ensures Field(WithField(b, 1, st), j) == if j == 1 then st else Field(b, j)
  {
    assert j == 0 || j == 1 || j == 2 || j == 3;
  }

  lemma FieldSet2(b: bv8, st: bv8, j: nat)
    requires j < 4 && st < 4
    ensures Field(WithField(b, 2, st), j) == if j == 2 then st else Field(b, j)
  {
    assert j == 0 || j == 1 || j == 2 || j == 3;
  }

  lemma FieldSet3(b: bv8, st: bv8, j: nat)
    requires j < 4 && st < 4
    ensures Field(WithField(b, 3, st), j) == if j == 3 then st else Field(b, j)
  {
    assert j == 0 || j == 1 || j == 2 || j == 3;
  }

  lemma CodeBack(st: State)
    ensures Code(st) < 4 && Decode(Code(st)) == st
  {
  }

  /** where the source keeps a row: its page's body, then the byte in it */
  function ByteOf(r: nat): nat {
    PageOf(r) * BODY + (r - PageOf(r) * PER_PAGE) / 4
  }

  lemma ByteIs(r: nat)
    ensures ByteOf(r) == r / 4 && (r - PageOf(r) * PER_PAGE) % 4 == r % 4
  {
  }

  // ---- what a range of rows becomes -----------------------------------------------------------------

  /** a bio of sectors [from, to) covers row r whole */
  predicate Whole(r: nat, rs: nat, from: nat, to: nat) {
    r * rs >= from && (r + 1) * rs <= to
  }

  /** rows [first, last) noted one after the other */
  function NoteRows(s: Sys, first: nat, last: nat, rs: nat, from: nat, to: nat): (t: Sys)
    requires last <= |s.states| || last <= first
    ensures |t.states| == |s.states|
    decreases last
  {
    if last <= first then s
    else DoNote(NoteRows(s, first, last - 1, rs, from, to), last - 1, Whole(last - 1, rs, from, to))
  }

  /** one past the last row of the map with a sector of [from, to), none before from's */
  function EndRow(from: nat, to: nat, rs: nat, nrows: nat): (end: nat)
    requires rs > 0 && from <= to
  {
    if from == to then from / rs
    else if (to - 1) / rs < nrows then (to - 1) / rs + 1
    else if from / rs < nrows then nrows else from / rs
  }

  function DiscardRows(s: Sys, first: nat, last: nat): (t: Sys)
    requires last <= |s.states|
    ensures |t.states| == |s.states|
    decreases last
  {
    if last <= first then s else DoDiscard(DiscardRows(s, first, last - 1), last - 1)
  }

  /** rows discarded are unused, and no other row's state changes; their pages are dirty */
  lemma {:induction false} DiscardedAt(s: Sys, first: nat, last: nat, r: nat)
    requires last <= |s.states| && r < |s.states|
    ensures DiscardRows(s, first, last).states[r] == if first <= r < last then U else s.states[r]
    decreases last
  {
    if first < last {
      DiscardedAt(s, first, last - 1, r);
    }
  }

  lemma {:induction false} DiscardedPages(s: Sys, first: nat, last: nat, p: nat)
    requires last <= |s.states|
    ensures var t := DiscardRows(s, first, last); p in t.dirty <==> p in s.dirty || Changed(s.states, t.states, p)
    decreases last
  {
    if first < last {
      var t, r := DiscardRows(s, first, last - 1), last - 1;
      DiscardedPages(s, first, last - 1, p);
      DiscardedAt(s, first, last - 1, r);
      var u := DoDiscard(t, r);
      assert forall q: nat :: q < |s.states| && q != r ==> u.states[q] == t.states[q];
      hide PageOf;
      if Changed(s.states, t.states, p) {
        var q: nat :| q < |s.states| && PageOf(q) == p && s.states[q] != t.states[q];
        assert s.states[q] != u.states[q];
      }
      if p == PageOf(r) && !s.states[r].U? {
        assert Changed(s.states, u.states, p);
      }
    }
  }

  lemma Discarded(s: Sys, first: nat, last: nat)
    requires last <= |s.states|
    ensures var t := DiscardRows(s, first, last);
      && (forall r: nat :: r < |s.states| ==> t.states[r] == if first <= r < last then U else s.states[r])
      && forall p: nat :: p in t.dirty <==> p in s.dirty || Changed(s.states, t.states, p)
  {
    forall r: nat | r < |s.states|
      ensures DiscardRows(s, first, last).states[r] == if first <= r < last then U else s.states[r]
    {
      DiscardedAt(s, first, last, r);
    }
    forall p: nat
      ensures var t := DiscardRows(s, first, last); p in t.dirty <==> p in s.dirty || Changed(s.states, t.states, p)
    {
      DiscardedPages(s, first, last, p);
    }
  }

  lemma {:induction false} NoteRowsAbove(s: Sys, first: nat, last: nat, rs: nat, from: nat, to: nat, r: nat)
    requires first <= last <= |s.states| && r < |s.states| && !(first <= r < last)
    ensures NoteRows(s, first, last, rs, from, to).states[r] == s.states[r]
    ensures NoteRows(s, first, last, rs, from, to).epoch == s.epoch
    decreases last
  {
    if last > first {
      NoteRowsAbove(s, first, last - 1, rs, from, to, r);
    }
  }

  /** the write has a sector in row r */
  predicate Touches(r: nat, rs: nat, from: nat, to: nat) {
    from < to && r * rs < to && from < (r + 1) * rs
  }

  /** x is a sector of row r */
  predicate SectorOf(x: nat, r: nat, rs: nat) {
    r * rs <= x < (r + 1) * rs
  }

  /** A row is whole in the range when all of its sectors are, and touched when one is. */
  lemma WholeExactly(r: nat, rs: nat, from: nat, to: nat)
    requires rs > 0
    ensures Whole(r, rs, from, to) <==> forall x: nat :: SectorOf(x, r, rs) ==> from <= x < to
    ensures Touches(r, rs, from, to) <==> exists x: nat :: SectorOf(x, r, rs) && from <= x < to
  {
    Arith.MulSucc(r, rs);
    assert SectorOf(r * rs, r, rs) && SectorOf((r + 1) * rs - 1, r, rs);
    if Touches(r, rs, from, to) {
      assert SectorOf(if from < r * rs then r * rs else from, r, rs);
    }
  }

  /** the rows noted are those with a sector in the range */
  lemma RangeExactly(from: nat, to: nat, rs: nat, nrows: nat, r: nat)
    requires rs > 0 && from <= to && r < nrows
    ensures from / rs <= r < EndRow(from, to, rs, nrows) <==> Touches(r, rs, from, to)
  {
    if from < to {
      Arith.QuotientBound(from, r + 1, rs);
      Arith.QuotientBound(to - 1, r, rs);
    }
  }

  lemma AnyUnused(s: Sys, from: nat, to: nat, rs: nat)
    requires rs > 0 && from <= to
    ensures var end := EndRow(from, to, rs, |s.states|);
      && (end <= |s.states| || end <= from / rs)
      && ((exists r :: from / rs <= r < end && s.states[r].U?)
          <==> exists r: nat :: r < |s.states| && Touches(r, rs, from, to) && s.states[r].U?)
  {
    EndRowIn(from, to, rs, |s.states|);
    forall r: nat | r < |s.states|
      ensures from / rs <= r < EndRow(from, to, rs, |s.states|) <==> Touches(r, rs, from, to)
    {
      RangeExactly(from, to, rs, |s.states|, r);
    }
    hide EndRow, Touches;
  }

  lemma EndRowIn(from: nat, to: nat, rs: nat, nrows: nat)
    requires rs > 0 && from <= to
    ensures EndRow(from, to, rs, nrows) <= nrows || EndRow(from, to, rs, nrows) <= from / rs
  {
  }

  /** what a write leaves of a row's state */
  lemma {:induction false} NotedAt(s: Sys, first: nat, last: nat, rs: nat, from: nat, to: nat, r: nat)
    requires (last <= |s.states| || last <= first) && r < |s.states|
    ensures NoteRows(s, first, last, rs, from, to).states[r] ==
      (if !(first <= r < last) then s.states[r]
       else if s.states[r].W? || Whole(r, rs, from, to) then W
       else if s.states[r].U? then N else s.states[r])
    decreases last
  {
    if first < last {
      NotedAt(s, first, last - 1, rs, from, to, r);
      hide Whole;
    }
  }

  /** a page holds a row whose state differs */
  ghost predicate Changed(was: seq<State>, now: seq<State>, p: nat) {
    exists r: nat :: r < |was| && r < |now| && PageOf(r) == p && was[r] != now[r]
  }

  /** a page holds a row that was unused and is not */
  ghost predicate Entered(was: seq<State>, now: seq<State>, p: nat) {
    exists r: nat :: r < |was| && r < |now| && PageOf(r) == p && was[r].U? && !now[r].U?
  }

  lemma OneNoted(s: Sys, t: Sys, r: nat, full: bool, p: nat)
    requires |t.states| == |s.states| && r < |s.states| && t.states[r] == s.states[r]
    requires p in t.dirty <==> p in s.dirty || Changed(s.states, t.states, p)
    requires Need(t, p) == if Entered(s.states, t.states, p) then s.epoch + 1 else Need(s, p)
    requires t.epoch == s.epoch && forall q: nat :: r <= q < |s.states| ==> t.states[q] == s.states[q]
    ensures var u := DoNote(t, r, full);
      && (p in u.dirty <==> p in s.dirty || Changed(s.states, u.states, p))
      && Need(u, p) == if Entered(s.states, u.states, p) then s.epoch + 1 else Need(s, p)
  {
    var u := DoNote(t, r, full);
    assert forall q: nat :: q < |s.states| && q != r ==> u.states[q] == t.states[q];
    if Changed(s.states, t.states, p) {
      var q: nat :| q < |s.states| && PageOf(q) == p && s.states[q] != t.states[q];
      assert s.states[q] != u.states[q];
    }
    if Entered(s.states, t.states, p) {
      var q: nat :| q < |s.states| && PageOf(q) == p && s.states[q].U? && !t.states[q].U?;
      assert !u.states[q].U?;
    }
    hide PageOf;
    if p == PageOf(r) && u.states[r] != s.states[r] {
      assert Changed(s.states, u.states, p);
      assert s.states[r].U? ==> Entered(s.states, u.states, p);
    }
  }

  /** a page is dirty once one of its rows has changed, and needs the next flush once one of them
      has left unused */
  lemma {:induction false} NotedPages(s: Sys, first: nat, last: nat, rs: nat, from: nat, to: nat, p: nat)
    requires last <= |s.states| || last <= first
    ensures var t := NoteRows(s, first, last, rs, from, to);
      && (p in t.dirty <==> p in s.dirty || Changed(s.states, t.states, p))
      && Need(t, p) == if Entered(s.states, t.states, p) then s.epoch + 1 else Need(s, p)
    decreases last
  {
    if first < last {
      var t := NoteRows(s, first, last - 1, rs, from, to);
      NotedPages(s, first, last - 1, rs, from, to, p);
      forall q: nat | last - 1 <= q < |s.states| ensures t.states[q] == s.states[q] {
        NotedAt(s, first, last - 1, rs, from, to, q);
      }
      NoteRowsAbove(s, first, last - 1, rs, from, to, last - 1);
      hide DoNote, Changed, Entered, Need, Whole;
      OneNoted(s, t, last - 1, Whole(last - 1, rs, from, to), p);
    }
  }

  /** all of it, in the source's terms: r's own state, its page */
  ghost predicate Noted(s: Sys, now: seq<State>, rs: nat, from: nat, to: nat) {
    && |now| == |s.states|
    && forall r: nat :: r < |now| ==>
         now[r] == (if !Touches(r, rs, from, to) then s.states[r]
                    else if s.states[r].W? || (from <= r * rs && (r + 1) * rs <= to) then W
                    else if s.states[r].U? then N else s.states[r])
  }

  lemma NotedRange(s: Sys, from: nat, to: nat, rs: nat)
    requires rs > 0 && from <= to
    ensures var t := NoteRows(s, from / rs, EndRow(from, to, rs, |s.states|), rs, from, to);
      && Noted(s, t.states, rs, from, to)
      && (forall p: nat :: p in t.dirty <==> p in s.dirty || Changed(s.states, t.states, p))
      && forall p: nat :: Need(t, p) == if Entered(s.states, t.states, p) then s.epoch + 1 else Need(s, p)
  {
    var first, end := from / rs, EndRow(from, to, rs, |s.states|);
    var t := NoteRows(s, first, end, rs, from, to);
    forall r: nat | r < |t.states|
      ensures t.states[r] == (if !Touches(r, rs, from, to) then s.states[r]
                              else if s.states[r].W? || (from <= r * rs && (r + 1) * rs <= to) then W
                              else if s.states[r].U? then N else s.states[r])
    {
      RangeExactly(from, to, rs, |s.states|, r);
      NotedAt(s, first, end, rs, from, to, r);
      hide Touches, EndRow;
    }
    forall p: nat
      ensures p in t.dirty <==> p in s.dirty || Changed(s.states, t.states, p)
      ensures Need(t, p) == if Entered(s.states, t.states, p) then s.epoch + 1 else Need(s, p)
    {
      NotedPages(s, first, end, rs, from, to, p);
    }
  }

  // ---- a range of rows, as acts on what their parity is ------------------------------------------

  /** the acts of the rows noted: a write of the row, or of these stripes of it */
  function NoteActs(first: nat, last: nat, rs: nat, from: nat, to: nat, stripes: nat -> set<nat>): seq<RowTrust.Act>
    decreases last
  {
    if last <= first then []
    else
      var a := if Whole(last - 1, rs, from, to) then RowTrust.WriteRow(last - 1)
               else RowTrust.WritePart(last - 1, stripes(last - 1));
      NoteActs(first, last - 1, rs, from, to, stripes) + [a]
  }

  lemma RunsOn(s: RowTrust.Rows, acts: seq<RowTrust.Act>, a: RowTrust.Act)
    requires RowTrust.CanRun(s, acts) && RowTrust.Can(RowTrust.Run(s, acts), a)
    ensures RowTrust.CanRun(s, acts + [a])
    ensures RowTrust.Run(s, acts + [a]) == RowTrust.Do(RowTrust.Run(s, acts), a)
  {
    hide *;
    RowTrust.OneAct(RowTrust.Run(s, acts), a);
    RunsJoin(s, acts, [a]);
  }

  lemma {:induction false} RunsJoin(s: RowTrust.Rows, a: seq<RowTrust.Act>, b: seq<RowTrust.Act>)
    requires RowTrust.CanRun(s, a) && RowTrust.CanRun(RowTrust.Run(s, a), b)
    ensures RowTrust.CanRun(s, a + b) && RowTrust.Run(s, a + b) == RowTrust.Run(RowTrust.Run(s, a), b)
    decreases |a|
  {
    hide RowTrust.Can, RowTrust.Do;
    if a == [] {
      assert a + b == b;
    } else {
      assert (a + b)[0] == a[0] && (a + b)[1..] == a[1..] + b;
      RunsJoin(RowTrust.Do(s, a[0]), a[1..], b);
    }
  }

  lemma NoteIsAct(s: Sys, p: RowTrust.Rows, r: nat, full: bool, ks: set<nat>)
    requires p.states == s.states && r < |s.states| && forall k :: k in ks ==> k < p.sc
    ensures var a := if full then RowTrust.WriteRow(r) else RowTrust.WritePart(r, ks);
      && RowTrust.Can(p, a) && RowTrust.Do(p, a).states == DoNote(s, r, full).states
      && RowTrust.Do(p, a).sc == p.sc && RowTrust.Do(p, a).pass == p.pass
  {
  }

  /** What a write notes of its rows is what it does to them on RowTrust's machine. */
  lemma {:induction false} NotesAreActs(s: Sys, p: RowTrust.Rows, first: nat, last: nat, rs: nat, from: nat, to: nat,
                                        stripes: nat -> set<nat>)
    requires p.states == s.states && (last <= |s.states| || last <= first)
    requires forall r: nat, k :: k in stripes(r) ==> k < p.sc
    ensures var acts := NoteActs(first, last, rs, from, to, stripes);
      && RowTrust.CanRun(p, acts) && RowTrust.Run(p, acts).sc == p.sc && RowTrust.Run(p, acts).pass == p.pass
      && RowTrust.Run(p, acts).states == NoteRows(s, first, last, rs, from, to).states
    decreases last
  {
    if first < last {
      var r, acts := last - 1, NoteActs(first, last - 1, rs, from, to, stripes);
      NotesAreActs(s, p, first, last - 1, rs, from, to, stripes);
      var t, q := NoteRows(s, first, last - 1, rs, from, to), RowTrust.Run(p, acts);
      var a := if Whole(r, rs, from, to) then RowTrust.WriteRow(r) else RowTrust.WritePart(r, stripes(r));
      NoteIsAct(t, q, r, Whole(r, rs, from, to), stripes(r));
      hide RowTrust.Can, RowTrust.Do, RowTrust.Run, RowTrust.CanRun, DoNote, Whole;
      RunsOn(p, acts, a);
      assert NoteActs(first, last, rs, from, to, stripes) == acts + [a];
    }
  }

  // ---- one page to the members, one after the other ---------------------------------------------

  /** the members, each once */
  ghost predicate Lists(ms: seq<nat>, keys: set<nat>) {
    (forall m :: m in ms <==> m in keys) && forall i, j :: 0 <= i < j < |ms| ==> ms[i] != ms[j]
  }

  lemma ListsTail(ms: seq<nat>, keys: set<nat>)
    requires Lists(ms, keys) && ms != []
    ensures ms[0] in keys && Lists(ms[1..], keys - {ms[0]})
  {
    forall m: nat ensures m in ms[1..] <==> m in keys - {ms[0]} {
      assert m in ms <==> m == ms[0] || m in ms[1..];
    }
  }

  lemma ListsMore(ms: seq<nat>, keys: set<nat>, m: nat)
    requires Lists(ms, keys) && m !in keys
    ensures Lists(ms + [m], keys + {m})
  {
    assert forall j :: 0 <= j < |ms| ==> ms[j] in keys;
  }

  lemma ListsEmpty(ms: seq<nat>, keys: set<nat>)
    requires Lists(ms, keys)
    ensures ms == [] <==> keys == {}
  {
    assert ms != [] ==> ms[0] in keys;
  }

  /** members are being tried: of those not left, the ones still there took the page */
  ghost predicate Written(s: Sys, t: Sys)
    requires s.flush.Running? && s.flush.at.Writing? && t.flush.Running? && t.flush.at.Writing?
  {
    && t == s.(disks := t.disks, flush := s.flush.(at := s.flush.at.(left := t.flush.at.left, took := t.flush.at.took)))
    && t.flush.at.left <= t.disks.Keys <= s.disks.Keys
    && (t.flush.at.took <==> t.disks.Keys != t.flush.at.left)
    && forall m :: m in t.disks ==>
         t.disks[m] == if m in t.flush.at.left then s.disks[m] else WithPage(s, s.disks[m])
  }

  lemma NoneWritten(s: Sys)
    requires s.flush.Running? && s.flush.at.Writing? && s.flush.at.left == s.disks.Keys && !s.flush.at.took
    ensures Written(s, s)
  {
  }

  lemma NoneListed(all: set<nat>, left: set<nat>)
    requires left == all
    ensures Lists([], all - left)
  {
  }

  function WithPage(s: Sys, disk: map<nat, Cell>): map<nat, Cell>
    requires s.flush.Running? && s.flush.at.Writing?
  {
    PutCell(disk, s.flush.at.p, Cell(Good(s.gen, s.flush.at.body), {}))
  }

  function MemberSteps(m: nat, ok: bool): seq<Step> {
    [Put(m), if ok then Took(m) else Refused(m)]
  }

  function MemberDone(t: Sys, m: nat, ok: bool): Sys
    requires t.flush.Running? && t.flush.at.Writing? && m in t.disks
  {
    if ok then DoTook(DoPut(t, m), m) else DoLose(DoPut(t, m), m)
  }

  lemma MemberRuns(t: Sys, m: nat, ok: bool)
    requires t.flush.Running? && t.flush.at.Writing? && m in t.disks && m in t.flush.at.left
    ensures Ran(t, MemberSteps(m, ok), MemberDone(t, m, ok))
  {
    var v := DoPut(t, m);
    var last := if ok then Took(m) else Refused(m);
    assert Next(t, Put(m), v) && Next(v, last, MemberDone(t, m, ok));
    assert MemberSteps(m, ok) == [Put(m)] + [last];
    hide *;
    RanStep(t, Put(m), v);
    RanStep(v, last, MemberDone(t, m, ok));
    RanOn(t, [Put(m)], v, [last], MemberDone(t, m, ok));
  }

  lemma PutTwice(disk: map<nat, Cell>, p: nat, c: Cell, c': Cell)
    ensures PutCell(PutCell(disk, p, c), p, c') == PutCell(disk, p, c')
  {
  }

  /** its copy, in the end, and nothing else */
  lemma MemberDoneIs(t: Sys, m: nat, ok: bool)
    requires t.flush.Running? && t.flush.at.Writing? && m in t.disks
    ensures var w, u := t.flush.at, MemberDone(t, m, ok);
      && u == t.(disks := u.disks, flush := t.flush.(at := w.(left := w.left - {m}, took := w.took || ok)))
      && u.disks == if ok then t.disks[m := WithPage(t, t.disks[m])] else t.disks - {m}
  {
    var w, v := t.flush.at, DoPut(t, m);
    var c := CellOf(t.disks[m], w.p);
    PutTwice(t.disks[m], w.p, Cell(Good(t.gen, w.body), c.may + {c.cur, Bad}), Cell(Good(t.gen, w.body), {}));
    assert v.flush.Running? && v.flush.at.Writing? && v.flush == t.flush && v.gen == t.gen;
    assert v.disks - {m} == t.disks - {m};
    hide PutCell;
  }

  /** one member takes the page, or is out */
  lemma MemberWritten(s: Sys, t: Sys, m: nat, ok: bool)
    requires s.flush.Running? && s.flush.at.Writing? && t.flush.Running? && t.flush.at.Writing?
    requires Written(s, t) && m in t.flush.at.left
    ensures m in t.disks && MemberDone(t, m, ok).flush.Running? && MemberDone(t, m, ok).flush.at.Writing?
    ensures Written(s, MemberDone(t, m, ok))
    ensures var u := MemberDone(t, m, ok);
      && u == t.(disks := u.disks, flush := u.flush) && u.flush.at.left == t.flush.at.left - {m}
      && var took := t.disks.Keys - t.flush.at.left;
         u.disks.Keys - u.flush.at.left == if ok then took + {m} else took
  {
    MemberDoneIs(t, m, ok);
    var u, left := MemberDone(t, m, ok), t.flush.at.left;
    assert WithPage(t, t.disks[m]) == WithPage(s, s.disks[m]);
    hide MemberDone, PutCell, WithPage;
    assert left == (left - {m}) + {m} && t.disks.Keys == (t.disks.Keys - {m}) + {m};
    if ok {
      assert m in u.disks.Keys && m !in u.flush.at.left;
    } else {
      assert u.disks.Keys == t.disks.Keys - {m};
    }
  }

  /** page p, copied at s, is on every member left */
  ghost predicate PagePut(s: Sys, t: Sys, p: nat, ok: bool)
    requires s.flush.Running?
  {
    && t == s.(disks := t.disks, dirty := t.dirty, safe := t.safe, base := t.base, flush := t.flush)
    && t.flush == Running(s.flush.todo - {p}, s.flush.failed || !ok, Nothing)
    && t.dirty == (if ok then s.dirty else s.dirty + {p})
    && forall m :: m in t.disks ==>
         m in s.disks && t.disks[m] == PutCell(s.disks[m], p, Cell(Good(s.gen, Body(s.states, p)), {}))
  }

  lemma CopyRuns(s: Sys, p: nat)
    requires CanCopy(s, p)
    ensures Ran(s, [Copy(p)], DoCopy(s, p))
  {
    hide Ran, DoCopy;
    RanStep(s, Copy(p), DoCopy(s, p));
  }

  lemma PageRuns(s: Sys, p: nat, u: Sys, v: Sys)
    requires CanCopy(s, p) && u == DoCopy(s, p) && u.flush.Running? && u.flush.at.Writing?
    requires v.flush.Running? && v.flush.at.Writing? && Written(u, v) && v.flush.at.left == {}
    ensures IsWriting(v) && Ran(v, [PageOver], DoPageOver(v)) && v.flush.at.p == p
    ensures v.flush.at.tried == (s.disks.Keys != {}) && (v.flush.at.took <==> v.disks.Keys != {})
    ensures s.flush.Running? && PagePut(s, DoPageOver(v), p, !(v.flush.at.tried && !v.flush.at.took))
  {
    RanStep(v, PageOver, DoPageOver(v));
    hide Ran, Body, NowSafe;
  }

  lemma TriedAll(was: seq<nat>, s: Sys, now: seq<nat>, v: Sys)
    requires Lists(was, s.disks.Keys) && Lists(now, v.disks.Keys) && s.flush.Running?
    requires v.flush.Running? && v.flush.at.Writing? && v.flush.at.tried == (s.disks.Keys != {})
    ensures v.flush.at.tried == (was != []) && (now != [] <==> v.disks.Keys != {})
  {
    ListsEmpty(was, s.disks.Keys);
    ListsEmpty(now, v.disks.Keys);
    hide Lists;
  }

  lemma StartRuns(s: Sys)
    requires s.flush.Idle?
    ensures Ran(s, [Start], DoStart(s)) && DoStart(s).states == s.states && DoStart(s).need == s.need
    ensures s.dirty == {} ==> DoStart(s).flush.Idle? && DoStart(s).dirty == {} && AllWritten(s, DoStart(s))
    ensures s.dirty != {} ==> DoStart(s).flush == Running(s.dirty, false, Nothing) && DoStart(s).dirty == {}
  {
    hide Ran;
    RanStep(s, Start, DoStart(s));
  }

  lemma OverRuns(s: Sys, v: Sys, snap: seq<bool>, ok: bool)
    requires s.flush.Idle? && s.dirty != {} && Left(snap, 0) == s.dirty && PagesPut(DoStart(s), v, snap, |snap|, ok)
    ensures v.flush.Running? && ok == !v.flush.failed && Ran(v, [FlushOver], DoFlushOver(v))
    ensures var t := DoFlushOver(v);
      t.flush.Idle? && t.states == s.states && t.need == s.need
      && (if ok then t.dirty == {} && AllWritten(s, t) else t.dirty != {})
  {
    assert Left(snap, |snap|) == {};
    assert v.flush.todo == {};
    hide Ran, Body;
    RanStep(v, FlushOver, DoFlushOver(v));
    forall p, m | p in s.dirty && m in v.disks
      ensures CellOf(v.disks[m], p) == Cell(Good(v.gen, Body(s.states, p)), {})
    {
      assert p in Left(snap, 0);
    }
  }

  ghost function Left(snap: seq<bool>, n: nat): set<nat> {
    set p | n <= p < |snap| && snap[p]
  }

  /** the pages of the snapshot below n */
  ghost predicate PagesPut(s: Sys, t: Sys, snap: seq<bool>, n: nat, ok: bool) {
    && t == s.(disks := t.disks, dirty := t.dirty, safe := t.safe, base := t.base, flush := t.flush)
    && t.flush == Running(Left(snap, n), !ok, Nothing)
    && (ok <==> t.dirty == {})
    && forall p, m :: 0 <= p < n && p < |snap| && snap[p] && m in t.disks ==>
         CellOf(t.disks[m], p) == Cell(Good(s.gen, Body(s.states, p)), {})
  }

  /** every page that was dirty is on every member left */
  ghost predicate AllWritten(s: Sys, t: Sys) {
    forall p, m :: p in s.dirty && m in t.disks ==> CellOf(t.disks[m], p) == Cell(Good(t.gen, Body(s.states, p)), {})
  }

  lemma PutNone(s: Sys, snap: seq<bool>)
    requires s.flush == Running(Left(snap, 0), false, Nothing) && s.dirty == {}
    ensures PagesPut(s, s, snap, 0, true)
  {
  }

  lemma CanPut(s: Sys, t: Sys, snap: seq<bool>, p: nat, ok: bool)
    requires PagesPut(s, t, snap, p, ok) && p < |snap| && snap[p]
    ensures CanCopy(t, p)
  {
  }

  lemma NextPut(s: Sys, t: Sys, u: Sys, snap: seq<bool>, p: nat, ok: bool, done: bool)
    requires PagesPut(s, t, snap, p, ok) && p < |snap| && snap[p] && t.flush.Running? && PagePut(t, u, p, done)
    ensures PagesPut(s, u, snap, p + 1, ok && done)
  {
    assert Left(snap, p) - {p} == Left(snap, p + 1);
    hide Body;
  }

  lemma NotPut(s: Sys, t: Sys, snap: seq<bool>, p: nat, ok: bool)
    requires PagesPut(s, t, snap, p, ok) && p < |snap| && !snap[p]
    ensures PagesPut(s, t, snap, p + 1, ok)
  {
    assert Left(snap, p) == Left(snap, p + 1);
    hide Body;
  }

  // ---- the map ----------------------------------------------------------------------------------------

  class Store {
    const nrows: nat
    const npages: nat
    const bytes: array<bv8>
    const dirty: array<bool>
    const need: array<nat>
    var epoch: nat
    var durable: nat
    var gen: nat
    /** the members not failed, and which of their next writes will be taken */
    var members: seq<nat>
    var fate: seq<bool>
    /** a pass under way that makes the rows it marked written when it ends */
    var passMarked: bool

    predicate Valid() {
      && bytes.Length == npages * BODY && dirty.Length == npages && need.Length == npages
      && npages * PER_PAGE >= nrows
    }

    lemma InMap(r: nat)
      requires Valid() && r < nrows
      ensures ByteOf(r) < bytes.Length && PageOf(r) < npages && r / 4 < bytes.Length
    {
      ByteIs(r);
    }

    function StateAt(r: nat): State
      requires Valid() && r < nrows
      reads bytes
    {
      InMap(r);
      Decode(Field(bytes[r / 4], r % 4))
    }

    ghost function States(): (s: seq<State>)
      requires Valid()
      reads bytes
      ensures |s| == nrows && forall r :: 0 <= r < nrows ==> s[r] == StateAt(r)
    {
      seq(nrows, r requires 0 <= r < nrows && Valid() reads bytes => StateAt(r))
    }

    /** the machine's state, but for what is on the members */
    ghost predicate IsIn(s: Sys)
      reads this, bytes, dirty, need
    {
      Keeps(s) && Lists(members, s.disks.Keys)
    }

    ghost predicate Keeps(s: Sys)
      reads this`epoch, this`durable, this`gen, bytes, dirty, need
    {
      && Valid() && s.states == States() && s.epoch == epoch && s.durable == durable && s.gen == gen
      && (forall p: nat :: p in s.dirty <==> p < npages && dirty[p])
      && (forall p: nat :: p < npages ==> Need(s, p) == need[p])
    }

    constructor (nrows: nat, npages: nat)
      requires npages * PER_PAGE >= nrows
      ensures Valid() && this.nrows == nrows && this.npages == npages && fresh(bytes) && fresh(dirty) && fresh(need)
    {
      this.nrows, this.npages := nrows, npages;
      bytes := new bv8[npages * BODY](_ => 0);
      dirty := new bool[npages](_ => false);
      need := new nat[npages](_ => 0);
      epoch, durable, gen, members, fate, passMarked := 0, 0, 0, [], [], false;
    }

    /** rk_rm_get */
    method Get(r: nat) returns (st: State)
      requires Valid() && r < nrows
      ensures st == StateAt(r)
    {
      InMap(r);
      ByteIs(r);
      st := Decode(Field(bytes[ByteOf(r)], (r - PageOf(r) * PER_PAGE) % 4));
    }

    /** rk_rm_set, without the dirty mark */
    method Put(r: nat, st: State)
      requires Valid() && r < nrows
      modifies bytes
      ensures Valid() && States() == old(States())[r := st]
    {
      InMap(r);
      ByteIs(r);
      ghost var was := States();
      ghost var b := bytes[r / 4];
      bytes[ByteOf(r)] := WithField(bytes[ByteOf(r)], (r - PageOf(r) * PER_PAGE) % 4, Code(st));
      CodeBack(st);
      forall q: nat | q < nrows ensures StateAt(q) == if q == r then st else was[q] {
        InMap(q);
        FieldSet(b, r % 4, Code(st), q % 4);
        hide WithField, Field, Decode, Code;
      }
    }

    /** rk_rm_set */
    method Set(r: nat, st: State)
      requires Valid() && r < nrows
      modifies bytes, dirty
      ensures Valid() && States() == old(States())[r := st]
      ensures forall p :: 0 <= p < npages ==> dirty[p] == (old(dirty[p]) || p == PageOf(r))
    {
      InMap(r);
      Put(r, st);
      dirty[PageOf(r)] := true;
    }

    /** one row of raidkm_rowmap_note_write */
    method NoteRow(r: nat, full: bool, ghost s: Sys) returns (durably: bool)
      requires IsIn(s) && r < nrows
      modifies bytes, dirty, need
      ensures IsIn(DoNote(s, r, full)) && durably == s.states[r].U?
    {
      InMap(r);
      var st := Get(r);
      durably := st.U?;
      if st.U? {
        need[PageOf(r)] := epoch + 1;
        Set(r, if full then W else N);
      } else if !st.W? && full {
        Set(r, W);
      }
    }

    /** raidkm_rowmap_note_write: sectors [from, to) of the array are about to be written */
    method NoteWrite(from: nat, to: nat, rs: nat, ghost s: Sys) returns (durably: bool)
      requires IsIn(s) && rs > 0 && from <= to && |s.states| == nrows
      modifies bytes, dirty, need
      ensures IsIn(NoteRows(s, from / rs, EndRow(from, to, rs, nrows), rs, from, to))
      ensures Noted(s, States(), rs, from, to)
      ensures durably == exists r: nat :: r < nrows && Touches(r, rs, from, to) && s.states[r].U?
      ensures forall p :: 0 <= p < npages ==>
        && dirty[p] == (old(dirty[p]) || Changed(s.states, States(), p))
        && need[p] == if Entered(s.states, States(), p) then epoch + 1 else old(need[p])
    {
      NotedRange(s, from, to, rs);
      hide Noted, Changed, Entered;
      assert forall p :: 0 <= p < npages ==> (p in s.dirty <==> dirty[p]) && Need(s, p) == need[p];
      AnyUnused(s, from, to, rs);
      hide Touches, EndRow, IsIn, NoteRows;
      durably := NoteAll(from, to, rs, s);
    }

    method NoteAll(from: nat, to: nat, rs: nat, ghost s: Sys) returns (durably: bool)
      requires IsIn(s) && rs > 0 && from <= to && |s.states| == nrows
      modifies bytes, dirty, need
      ensures var first, end := from / rs, EndRow(from, to, rs, nrows);
        && IsIn(NoteRows(s, first, end, rs, from, to))
        && durably == exists r :: first <= r < end && s.states[r].U?
    {
      hide IsIn, DoNote, States;
      if from == to {
        return false;
      }
      var first, last: int := from / rs, (to - 1) / rs;
      RowOrder(from, to - 1, rs);
      if last >= nrows {
        last := nrows - 1;
      }
      durably := NoteRun(from, to, rs, first, if last < first then first else last + 1, s);
    }

    /** its loop, over the rows [first, end) */
    method NoteRun(from: nat, to: nat, rs: nat, first: nat, end: nat, ghost s: Sys) returns (durably: bool)
      requires IsIn(s) && |s.states| == nrows && first <= end && (end <= nrows || end == first)
      modifies bytes, dirty, need
      ensures IsIn(NoteRows(s, first, end, rs, from, to))
      ensures durably == exists r :: first <= r < end && s.states[r].U?
    {
      hide IsIn, DoNote, States;
      var r := first;
      durably := false;
      while r < end
        invariant first <= r <= end && IsIn(NoteRows(s, first, r, rs, from, to))
        invariant durably == exists q :: first <= q < r && s.states[q].U?
      {
        NoteRowsAbove(s, first, r, rs, from, to, r);
        var full := r * rs >= from && (r + 1) * rs <= to;
        var was := NoteRow(r, full, NoteRows(s, first, r, rs, from, to));
        durably := durably || was;
        r := r + 1;
      }
    }

    method DiscardRow(r: nat, ghost s: Sys)
      requires IsIn(s) && r < nrows && |s.states| == nrows
      modifies bytes, dirty
      ensures IsIn(DoDiscard(s, r))
    {
      InMap(r);
      var st := Get(r);
      if !st.U? {
        Set(r, U);
      }
    }

    /** raidkm_rowmap_note_discard */
    method NoteDiscard(first: nat, last: nat, ghost s: Sys)
      requires IsIn(s) && |s.states| == nrows
      modifies bytes, dirty
      ensures IsIn(DiscardRows(s, first, if last > nrows then nrows else last))
      ensures forall r :: 0 <= r < nrows ==> StateAt(r) == if first <= r < last then U else s.states[r]
      ensures forall p :: 0 <= p < npages ==> dirty[p] == (old(dirty[p]) || Changed(s.states, States(), p))
    {
      Discarded(s, first, if last > nrows then nrows else last);
      hide Changed;
      assert forall p :: 0 <= p < npages ==> (p in s.dirty <==> dirty[p]);
      DiscardAll(first, last, s);
    }

    method DiscardAll(first: nat, last: nat, ghost s: Sys)
      requires IsIn(s) && |s.states| == nrows
      modifies bytes, dirty
      ensures IsIn(DiscardRows(s, first, if last > nrows then nrows else last))
    {
      hide IsIn, DoDiscard, States;
      var end := if last > nrows then nrows else last;
      var r := first;
      while r < end
        invariant first <= r && (r <= end || r == first) && IsIn(DiscardRows(s, first, if r <= end then r else end))
      {
        DiscardRow(r, DiscardRows(s, first, r));
        r := r + 1;
      }
    }

    method ConvertRow(r: nat, from: State, to: State, persist: bool) returns (changed: bool)
      requires Valid() && r < nrows
      modifies bytes, dirty
      ensures Valid() && changed == (old(States())[r] == from)
      ensures States() == if changed then old(States())[r := to] else old(States())
      ensures forall p :: 0 <= p < npages ==> dirty[p] == (old(dirty[p]) || (changed && persist && p == PageOf(r)))
    {
      var st := Get(r);
      changed := st == from;
      if changed {
        if persist {
          Set(r, to);
        } else {
          Put(r, to);
        }
      }
    }

    /** the rows below r are converted, and their pages marked */
    ghost predicate ConvertedTo(was: seq<State>, marks: seq<bool>, from: State, to: State, persist: bool, r: nat)
      reads this, bytes, dirty
    {
      && Valid() && |was| == nrows && |marks| == npages && r <= nrows && States() == RestatedTo(was, from, to, r)
      && forall p :: 0 <= p < npages ==> dirty[p] == (marks[p] || (persist && p in PagesIn(was, from, r)))
    }

    lemma ConvertStart(from: State, to: State, persist: bool)
      requires Valid()
      ensures ConvertedTo(States(), dirty[..], from, to, persist, 0) && Count(States(), from, 0) == 0
    {
      RestateStart(States(), from, to);
      hide StateAt;
    }

    lemma ConvertedIs(was: seq<State>, marks: seq<bool>, from: State, to: State, persist: bool, r: nat)
      requires ConvertedTo(was, marks, from, to, persist, r)
      ensures Valid() && |was| == nrows && |marks| == npages && r <= nrows && States() == RestatedTo(was, from, to, r)
      ensures forall p :: 0 <= p < npages ==> dirty[p] == (marks[p] || (persist && p in PagesIn(was, from, r)))
    {
    }

    method ConvertNext(r: nat, from: State, to: State, persist: bool, ghost was: seq<State>, ghost marks: seq<bool>)
      returns (changed: bool)
      requires ConvertedTo(was, marks, from, to, persist, r) && r < nrows
      modifies bytes, dirty
      ensures ConvertedTo(was, marks, from, to, persist, r + 1)
      ensures |was| == nrows && changed == (was[r] == from)
      ensures Count(was, from, r + 1) == Count(was, from, r) + if changed then 1 else 0
    {
      RestateStep(was, from, to, r);
      changed := ConvertRow(r, from, to, persist);
      hide States, RestatedTo, PagesIn, Count;
    }

    /** rk_rm_convert: every row in one state becomes another; how many */
    method Convert(from: State, to: State, persist: bool) returns (n: nat)
      requires Valid()
      modifies bytes, dirty
      ensures Valid() && States() == RowTrust.Restated(old(States()), from, to)
      ensures n == Count(old(States()), from, nrows)
      ensures forall p :: 0 <= p < npages ==>
        dirty[p] == (old(dirty[p]) || (persist && p in PagesIn(old(States()), from, nrows)))
    {
      hide *;
      ghost var was, marks := States(), dirty[..];
      ConvertStart(from, to, persist);
      var r := 0;
      n := 0;
      while r < nrows
        invariant r <= nrows && ConvertedTo(was, marks, from, to, persist, r) && n == Count(was, from, r)
      {
        var changed := ConvertNext(r, from, to, persist, was, marks);
        if changed {
          n := n + 1;
        }
        r := r + 1;
      }
      ConvertedIs(was, marks, from, to, persist, r);
      RestatedAll(was, from, to);
    }

    /** how far a pass may skip from row on: the scan of raidkm_rowmap_sync_skip.  A resync, repair
        or recovery passes unused rows and no others; a check passes all rows not written. */
    method SkipRun(row: nat, lim: nat, check: bool) returns (r: nat)
      requires Valid() && row <= lim <= nrows
      ensures row <= r <= lim
      ensures !check ==> (forall q :: row <= q < r ==> StateAt(q).U?) && (r < lim ==> !StateAt(r).U?)
      ensures check ==> (forall q :: row <= q < r ==> !StateAt(q).W?) && (r < lim ==> StateAt(r).W?)
    {
      r := row;
      while r < lim
        invariant row <= r <= lim
        invariant forall q :: row <= q < r ==> if check then !StateAt(q).W? else StateAt(q).U?
      {
        var st := Get(r);
        if !Skippable(st, check) {
          break;
        }
        r := r + 1;
      }
    }

    /** the states are those of RowTrust's machine, and so is whether the pass may promote rows */
    ghost predicate Follows(p: RowTrust.Rows)
      reads this`passMarked, bytes
    {
      Valid() && p.states == States() && (passMarked <==> p.pass.Pass? && p.pass.marked)
    }

    /** the top of raidkm_rowmap_sync_skip: a pass that may write marks, as it starts, the rows in
        need of a sync; one that finds too many members gone syncs nothing and will promote nothing */
    method MarkRows(start: bool, check: bool, degraded: nat, most: nat, ghost limited: bool, ghost p: RowTrust.Rows)
      returns (ghost acts: seq<RowTrust.Act>, ghost q: RowTrust.Rows)
      requires Valid() && (!check ==> Follows(p) && (start <==> p.pass.NoPass?))
      modifies this`passMarked, bytes, dirty
      ensures Valid() && forall x :: 0 <= x < npages ==> dirty[x] == old(dirty[x])
      ensures var starts := start && !check && !old(passMarked) && degraded == 0;
        && passMarked == ((old(passMarked) || starts) && degraded < most)
        && forall r :: 0 <= r < nrows ==> StateAt(r) == if starts && old(StateAt(r)).N? then S else old(StateAt(r))
      ensures !check ==> RowTrust.CanRun(p, acts) && q == RowTrust.Run(p, acts) && Follows(q) && q.sc == p.sc
      ensures !check ==> q.pass.Pass? && q.pass.pos == if start then 0 else p.pass.pos
    {
      ghost var was := States();
      assert forall r :: 0 <= r < nrows ==> was[r] == StateAt(r);
      acts, q := [], p;
      if start && !check {
        ghost var a := RowTrust.PassStart(degraded > 0, limited);
        acts, q := [a], RowTrust.Do(p, a);
        RowTrust.OneAct(p, a);
        if degraded == 0 && !passMarked {
          var n := Convert(N, S, false);
          passMarked := true;
        }
      }
      assert !check ==> Follows(q);
      if passMarked && degraded >= most {
        passMarked := false;
        if !check {
          RunsOn(p, acts, RowTrust.Degrade);
          acts, q := acts + [RowTrust.Degrade], RowTrust.Do(q, RowTrust.Degrade);
        }
      }
    }

    /** How many sectors from this one on need no pass, and the row where that ends: all the rows
        passed are unused, or for a check not written; the scan ends at the first other row, at
        the end of the pass or of the map, or after SCAN rows. */
    method ScanRows(sector: nat, max: nat, cs: nat, check: bool) returns (skip: nat, r: nat)
      requires Valid() && cs > 0 && sector < max
      ensures sector / cs <= r && skip == if r == sector / cs then 0 else Least(r * cs, max) - sector
      ensures r > sector / cs ==> r <= nrows && (r - 1) * cs < max
      ensures forall q :: sector / cs <= q < r ==> if check then !StateAt(q).W? else StateAt(q).U?
      ensures r < nrows && r * cs < max && r < sector / cs + SCAN ==>
        if check then StateAt(r).W? else !StateAt(r).U?
    {
      var row := sector / cs;
      var lim := Least(Least(nrows, (max + cs - 1) / cs), row + SCAN);
      forall q: nat ensures q * cs < max <==> q < (max + cs - 1) / cs {
        RowsIn(q, cs, max);
      }
      r := row;
      if row < lim {
        r := SkipRun(row, lim, check);
      }
      if r > row {
        RowAfter(sector, cs, r);
        RowsIn(r - 1, cs, max);
      }
      skip := if r == row then 0 else Least(r * cs, max) - sector;
    }

    /** raidkm_rowmap_sync_skip, for a resync, repair or check that has come to a sector.  All of it
        is acts of RowTrust's machine: the start of the pass, and a skip for each row passed. */
    method SyncSkip(sector: nat, max: nat, cs: nat, check: bool, degraded: nat, most: nat, ghost limited: bool,
            ghost p: RowTrust.Rows)
      returns (skip: nat, ghost r: nat, ghost acts: seq<RowTrust.Act>, ghost q: RowTrust.Rows)
      requires Valid() && cs > 0 && sector < max
      requires !check ==> Follows(p) && p.sc > 0 && (sector == 0 <==> p.pass.NoPass?)
      requires !check && sector > 0 ==> p.pass.pos / p.sc == sector / cs
      modifies this`passMarked, bytes, dirty
      ensures Valid() && forall x :: 0 <= x < npages ==> dirty[x] == old(dirty[x])
      ensures var starts := sector == 0 && !check && !old(passMarked) && degraded == 0;
        && passMarked == ((old(passMarked) || starts) && degraded < most)
        && forall x :: 0 <= x < nrows ==> StateAt(x) == if starts && old(StateAt(x)).N? then S else old(StateAt(x))
      ensures sector / cs <= r && skip == if r == sector / cs then 0 else Least(r * cs, max) - sector
      ensures r > sector / cs ==> r <= nrows && (r - 1) * cs < max
      ensures forall x :: sector / cs <= x < r ==> if check then !StateAt(x).W? else StateAt(x).U?
      ensures r < nrows && r * cs < max && r < sector / cs + SCAN ==>
        if check then StateAt(r).W? else !StateAt(r).U?
      ensures !check ==> RowTrust.CanRun(p, acts) && q == RowTrust.Run(p, acts) && Follows(q) && q.sc == p.sc
      ensures !check ==> q.pass.Pass? && q.pass.pos / q.sc == r
    {
      hide *;
      ghost var u;
      acts, u := MarkRows(sector == 0, check, degraded, most, limited, p);
      skip, r := ScanRows(sector, max, cs, check);
      q := u;
      if !check {
        q := SkipsFollow(u, sector / cs, r);
        RunsJoin(p, acts, RowTrust.Skips(r - sector / cs));
        acts := acts + RowTrust.Skips(r - sector / cs);
      }
    }

    lemma SkipsFollow(u: RowTrust.Rows, row: nat, r: nat) returns (q: RowTrust.Rows)
      requires Follows(u) && u.pass.Pass? && u.sc > 0 && u.pass.pos / u.sc == row <= r
      requires (r > row ==> r <= nrows) && forall x :: row <= x < r ==> StateAt(x).U?
      ensures RowTrust.CanRun(u, RowTrust.Skips(r - row)) && q == RowTrust.Run(u, RowTrust.Skips(r - row))
      ensures Follows(q) && q.sc == u.sc && q.pass.Pass? && q.pass.pos / q.sc == r
    {
      if r > row {
        assert forall x: nat :: row <= x < r ==> u.states[x].U?;
        RowTrust.SkipsRun(u, r - row);
        RowTrust.RowStart(r, u.sc);
      } else {
        assert RowTrust.Skips(0) == [];
      }
      q := RowTrust.Run(u, RowTrust.Skips(r - row));
    }

    /** raidkm_rowmap_pass_end: a pass that was marked, ran whole and to its end makes its rows
        written, unless a bitmap let it skip some; then they are in need of a sync as before */
    method PassEnd(interrupted: bool, whole: bool, limited: bool, ghost p: RowTrust.Rows)
      requires Follows(p) && p.pass.Pass? && p.pass.limited == limited
      requires interrupted || !whole || p.pass.pos >= nrows * p.sc
      modifies this`passMarked, bytes, dirty
      ensures Valid() && !passMarked
      ensures forall r :: 0 <= r < nrows ==>
        StateAt(r) == (if old(passMarked) && !interrupted && whole && old(StateAt(r)).S? then (if limited then N else W)
                       else old(StateAt(r)))
      ensures RowTrust.Can(p, RowTrust.PassEnd(interrupted || !whole))
      ensures Follows(RowTrust.Do(p, RowTrust.PassEnd(interrupted || !whole)))
    {
      ghost var was := States();
      assert forall r :: 0 <= r < nrows ==> was[r] == StateAt(r);
      if !passMarked {
        return;
      }
      passMarked := false;
      if interrupted || !whole {
        return;
      }
      var n;
      if limited {
        n := Convert(S, N, false);
      } else {
        n := Convert(S, W, true);
      }
    }

    /** raidkm_rowmap_note_row_written: a row written whole in several bios */
    method NoteRowWritten(r: nat, ghost p: RowTrust.Rows)
      requires Follows(p) && (r < nrows ==> RowTrust.Can(p, RowTrust.RowWritten(r)))
      modifies bytes, dirty
      ensures Valid()
      ensures forall q :: 0 <= q < nrows ==>
        StateAt(q) == if q == r && !old(StateAt(q)).U? then W else old(StateAt(q))
      ensures Follows(if r < nrows then RowTrust.Do(p, RowTrust.RowWritten(r)) else p)
    {
      ghost var was := States();
      assert forall q :: 0 <= q < nrows ==> was[q] == StateAt(q);
      if r >= nrows {
        return;
      }
      var st := Get(r);
      if st.N? || st.S? {
        Set(r, W);
      }
    }

    /** raidkm_rowmap_force_rcw: a stripe of a row not written makes its parity anew */
    method ForceRcw(msect: nat, cs: nat) returns (force: bool)
      requires Valid() && cs > 0
      ensures force <==> msect / cs < nrows && !StateAt(msect / cs).W?
    {
      var r := msect / cs;
      force := false;
      if r < nrows {
        var st := Get(r);
        force := !st.W?;
      }
    }

    /** the newest good copy of a page, the first of them, and whether any copy is damaged */
    method BestCopy(p: nat, imgs: seq<map<nat, Pg>>) returns (best: Pg, bad: bool)
      ensures !best.Bad? && (best.Good? ==> exists m: nat :: m < |imgs| && CopyOf(imgs, m, p) == best)
      ensures forall m: nat :: m < |imgs| && CopyOf(imgs, m, p).Good? ==>
        best.Good? && CopyOf(imgs, m, p).gen <= best.gen
      ensures bad <==> exists m: nat :: m < |imgs| && CopyOf(imgs, m, p).Bad?
    {
      best, bad := Zero, false;
      var i: nat := 0;
      while i < |imgs|
        invariant i <= |imgs|
        invariant !best.Bad? && (best.Good? ==> exists m: nat :: m < i && CopyOf(imgs, m, p) == best)
        invariant forall m: nat :: m < i && CopyOf(imgs, m, p).Good? ==>
          best.Good? && CopyOf(imgs, m, p).gen <= best.gen
        invariant bad <==> exists m: nat :: m < i && CopyOf(imgs, m, p).Bad?
      {
        var c := CopyOf(imgs, i, p);
        if c.Bad? {
          bad := true;
        } else if c.Good? && (!best.Good? || c.gen > best.gen) {
          best := c;
        }
        i := i + 1;
      }
    }

    /** the rows of a page, as its best copy says; all in need of a sync where a copy is damaged and
        none is good */
    method FillPage(p: nat, best: Pg, bad: bool)
      requires Valid() && p < npages && !best.Bad?
      modifies bytes
      ensures Valid()
      ensures forall r :: 0 <= r < nrows ==>
        StateAt(r) == if PageOf(r) != p then old(StateAt(r))
                      else if best.Good? then (if r in best.body then best.body[r] else U)
                      else if bad then N else old(StateAt(r))
    {
      if best.Zero? && !bad {
        return;
      }
      ghost var was := States();
      var first := p * PER_PAGE;
      var end := if first + PER_PAGE <= nrows then first + PER_PAGE else nrows;
      var r := first;
      assert forall q: nat :: q < nrows && PageOf(q) == p <==> first <= q < end && q < nrows;
      hide PageOf;
      while r < end
        invariant Valid() && first <= r && (first <= end ==> r <= end)
        invariant forall q :: 0 <= q < nrows ==>
          StateAt(q) == if !(first <= q < r) then was[q]
                        else if best.Good? then (if q in best.body then best.body[q] else U) else N
      {
        ghost var now := States();
        Put(r, if !best.Good? then N else if r in best.body then best.body[r] else U);
        assert forall q :: 0 <= q < nrows ==> StateAt(q) == States()[q] && (q != r ==> States()[q] == now[q]);
        r := r + 1;
      }
    }

    /** rk_rm_load: each page from the newest good copy of the members, in a map that starts unused */
    method Load(imgs: seq<map<nat, Pg>>)
      requires Valid() && (forall r :: 0 <= r < nrows ==> StateAt(r).U?) && OneBody(imgs)
      modifies this`gen, bytes
      ensures Valid() && States() == LoadStates(ImagesOf(imgs), nrows)
      ensures gen >= old(gen)
      ensures forall m: nat, p: nat :: m < |imgs| && p < npages && CopyOf(imgs, m, p).Good? ==>
        CopyOf(imgs, m, p).gen <= gen
    {
      var p: nat := 0;
      while p < npages
        invariant p <= npages && Valid() && gen >= old(gen)
        invariant forall r :: 0 <= r < nrows ==>
          StateAt(r) == if PageOf(r) < p then LoadRow(ImagesOf(imgs), r) else U
        invariant forall m: nat, q: nat :: m < |imgs| && q < p && CopyOf(imgs, m, q).Good? ==>
          CopyOf(imgs, m, q).gen <= gen
      {
        var best, bad := BestCopy(p, imgs);
        FillPage(p, best, bad);
        forall r: nat | r < nrows && PageOf(r) == p ensures StateAt(r) == LoadRow(ImagesOf(imgs), r) {
          BestLoads(imgs, p, best, bad, r);
        }
        if best.Good? && best.gen > gen {
          gen := best.gen;
        }
        p := p + 1;
      }
      forall r: nat | r < nrows ensures PageOf(r) < npages && StateAt(r) == LoadRow(ImagesOf(imgs), r) {
        InMap(r);
      }
    }

    /** does the next member write succeed? */
    method NextTaken() returns (ok: bool)
      modifies this`fate
    {
      ok := fate == [] || fate[0];
      fate := if fate == [] then [] else fate[1..];
    }

    /** what is on the members is no part of it */
    lemma StillKept(t: Sys, u: Sys)
      requires Keeps(t) && u == t.(disks := u.disks, flush := u.flush)
      ensures Keeps(u)
    {
    }

    lemma InParts(s: Sys)
      ensures IsIn(s) <==> Keeps(s) && Lists(members, s.disks.Keys)
      ensures IsIn(s) ==> Valid()
    {
    }

    /** rk_rm_write_page: the copied page to every member; one that fails it is out of the array */
    method WritePage(p: nat, body: map<nat, State>, ghost s: Sys) returns (ghost steps: seq<Step>, ghost t: Sys)
      requires IsIn(s) && s.flush.Running?
      requires s.flush.at == Writing(p, body, s.disks.Keys, false, s.disks.Keys != {})
      modifies this`members, this`fate
      ensures IsIn(t) && Ran(s, steps, t) && t.flush.Running? && t.flush.at.Writing? && t.flush.at.left == {}
      ensures Written(s, t)
      ensures |members| <= |old(members)|
    {
      hide *;
      var all, i := members, 0;
      InParts(s);
      members := [];
      steps, t := [], s;
      RanNone(s);
      assert all[0..] == all;
      NoneWritten(s);
      NoneListed(s.disks.Keys, s.flush.at.left);
      while i < |all|
        invariant i <= |all| && |members| <= i && Keeps(t) && Ran(s, steps, t)
        invariant t.flush.Running? && t.flush.at.Writing? && Written(s, t)
        invariant Lists(all[i..], t.flush.at.left) && Lists(members, t.disks.Keys - t.flush.at.left)
      {
        var ok := NextTaken();
        ListsTail(all[i..], t.flush.at.left);
        MemberWritten(s, t, all[i], ok);
        ghost var u := MemberDone(t, all[i], ok);
        MemberRuns(t, all[i], ok);
        RanOn(s, steps, t, MemberSteps(all[i], ok), u);
        StillKept(t, u);
        if ok {
          ListsMore(members, t.disks.Keys - t.flush.at.left, all[i]);
          members := members + [all[i]];
        }
        assert all[i..][1..] == all[i + 1..];
        steps, t := steps + MemberSteps(all[i], ok), u;
        i := i + 1;
      }
      ListsEmpty(all[i..], t.flush.at.left);
      assert t.disks.Keys - t.flush.at.left == t.disks.Keys;
      InParts(t);
    }

    /** the body of a page, copied under the lock */
    method CopyPage(p: nat) returns (body: map<nat, State>)
      requires Valid() && p < npages
      ensures body == Body(States(), p)
    {
      body := map[];
      var first := p * PER_PAGE;
      var end := if first + PER_PAGE <= nrows then first + PER_PAGE else nrows;
      var r := first;
      while r < end
        invariant first <= r && (first <= end ==> r <= end)
        invariant body == map q | first <= q < r && q < nrows :: States()[q]
      {
        var st := Get(r);
        body := body[r := st];
        r := r + 1;
      }
      assert forall q: nat :: q < nrows && PageOf(q) == p <==> first <= q < r && q < nrows;
    }

    /** the dirty pages, taken and cleared under the lock */
    method TakeDirty() returns (snap: seq<bool>, any: bool)
      requires Valid()
      modifies dirty
      ensures snap == old(dirty[..]) && forall p :: 0 <= p < npages ==> !dirty[p]
      ensures any == exists p :: 0 <= p < npages && snap[p]
    {
      snap := dirty[..];
      any := false;
      var p := 0;
      while p < npages
        invariant p <= npages && forall q :: 0 <= q < p ==> !dirty[q]
        invariant forall q :: p <= q < npages ==> dirty[q] == snap[q]
        invariant any == exists q :: 0 <= q < p && snap[q]
      {
        any := any || dirty[p];
        dirty[p] := false;
        p := p + 1;
      }
    }

    /** the top of a flush: the dirty pages are taken */
    method Begin(ghost s: Sys) returns (snap: seq<bool>, any: bool)
      requires IsIn(s)
      modifies this`epoch, this`durable, this`gen, dirty
      ensures IsIn(DoStart(s)) && epoch == old(epoch) + 1 && |snap| == npages && any == (s.dirty != {})
      ensures any ==> durable == old(durable) && Left(snap, 0) == s.dirty
      ensures !any ==> durable == epoch
    {
      epoch := epoch + 1;
      snap, any := TakeDirty();
      if any {
        gen := gen + 1;
      } else {
        durable := epoch;
      }
      hide States, Body, Lists;
      assert forall p :: p in s.dirty <==> 0 <= p < npages && snap[p];
    }

    method End(ok: bool, ghost s: Sys)
      requires IsIn(s) && s.flush.Running? && ok == !s.flush.failed
      modifies this`durable
      ensures IsIn(DoFlushOver(s)) && durable == if ok then epoch else old(durable)
    {
      if ok {
        durable := epoch;
      }
    }

    /** raidkm_rowmap_flush: a run of the machine from the start of a flush to its end.  Done:
        every page changed before it is on every member that is left, as it now is, and durable
        has moved.  Not done: some page reached no member. */
    method Flush(ghost s: Sys) returns (ok: bool, ghost steps: seq<Step>, ghost t: Sys)
      requires IsIn(s) && s.flush.Idle?
      modifies this`epoch, this`durable, this`gen, this`members, this`fate, dirty
      ensures IsIn(t) && t.flush.Idle? && Ran(s, steps, t)
      ensures t.states == s.states && t.need == s.need && epoch == old(epoch) + 1 && |members| <= |old(members)|
      ensures ok ==> durable == epoch && t.dirty == {} && AllWritten(s, t)
      ensures !ok ==> durable == old(durable) && t.dirty != {} && |members| < |old(members)|
    {
      hide *;
      var snap, any := Begin(s);
      ghost var u := DoStart(s);
      StartRuns(s);
      steps, t, ok := [Start], u, true;
      if any {
        ghost var rest, v;
        ok, rest, v := PutPages(snap, u);
        OverRuns(s, v, snap, ok);
        End(ok, v);
        t := DoFlushOver(v);
        RanOn(s, [Start], u, rest, v);
        RanOn(s, [Start] + rest, v, [FlushOver], t);
        steps := [Start] + rest + [FlushOver];
      }
    }

    /** one page of the snapshot: copied, written, and dirty again if it reached no member */
    method PutPage(p: nat, ghost s: Sys) returns (ok: bool, ghost steps: seq<Step>, ghost t: Sys)
      requires IsIn(s) && CanCopy(s, p) && p < npages
      modifies this`members, this`fate, dirty
      ensures IsIn(t) && Ran(s, steps, t)
      ensures s.flush.Running? && PagePut(s, t, p, ok) && |members| <= |old(members)|
      ensures !ok ==> old(members) != [] && members == []
    {
      hide *;
      var tried := members != [];
      InParts(s);
      var body := CopyPage(p);
      StillIn(s, p, body);
      ghost var u := DoCopy(s, p);
      CopyRuns(s, p);
      ghost var rest, v := WritePage(p, body, u);
      PageRuns(s, p, u, v);
      InParts(v);
      TriedAll(old(members), s, members, v);
      ok := Settle(p, tried, v);
      t := DoPageOver(v);
      RanOn(s, [Copy(p)], u, rest, v);
      RanOn(s, [Copy(p)] + rest, v, [PageOver], t);
      steps := [Copy(p)] + rest + [PageOver];
    }

    lemma StillIn(s: Sys, p: nat, body: map<nat, State>)
      requires IsIn(s) && CanCopy(s, p) && body == Body(States(), p)
      ensures s.states == States() && Lists(members, s.disks.Keys) && IsIn(DoCopy(s, p)) && DoCopy(s, p).flush.Running?
      ensures DoCopy(s, p).flush.at == Writing(p, body, s.disks.Keys, false, s.disks.Keys != {})
      ensures DoCopy(s, p).disks == s.disks
    {
      hide States, Body, Lists;
    }

    /** the page is dirty again if there were members and none of them took it */
    method Settle(p: nat, tried: bool, ghost s: Sys) returns (ok: bool)
      requires IsIn(s) && s.flush.Running? && s.flush.at.Writing? && s.flush.at.p == p < npages
      requires s.flush.at.tried == tried && (s.flush.at.took <==> members != [])
      modifies dirty
      ensures IsIn(DoPageOver(s)) && (ok <==> !(tried && members == []))
    {
      hide States, Body, Lists, NowSafe;
      ok := !tried || members != [];
      if !ok {
        dirty[p] := true;
      }
    }

    method PutPages(snap: seq<bool>, ghost s: Sys) returns (ok: bool, ghost steps: seq<Step>, ghost t: Sys)
      requires IsIn(s) && |snap| == npages && s.dirty == {}
      requires s.flush.Running? && s.flush.at.Nothing? && !s.flush.failed && s.flush.todo == Left(snap, 0)
      modifies this`members, this`fate, dirty
      ensures IsIn(t) && Ran(s, steps, t)
      ensures PagesPut(s, t, snap, npages, ok) && |members| <= |old(members)|
      ensures !ok ==> |members| < |old(members)|
    {
      ok, steps, t := true, [], s;
      var p := 0;
      PutNone(s, snap);
      RanNone(s);
      hide IsIn, Ran, PagePut, PagesPut;
      while p < npages
        invariant p <= npages && |members| <= |old(members)| && (!ok ==> |members| < |old(members)|)
        invariant IsIn(t) && Ran(s, steps, t) && PagesPut(s, t, snap, p, ok)
      {
        if snap[p] {
          CanPut(s, t, snap, p, ok);
          ghost var rest, u;
          var done;
          done, rest, u := PutPage(p, t);
          RanOn(s, steps, t, rest, u);
          NextPut(s, t, u, snap, p, ok, done);
          ok := ok && done;
          steps, t := steps + rest, u;
        } else {
          NotPut(s, t, snap, p, ok);
        }
        p := p + 1;
      }
    }

    /** raidkm_rowmap_wait_row: until the row's page is on disk, which is when the machine lets a
        row in use be written.  It ends: a flush that fails has lost every member it tried. */
    method WaitRow(r: nat, ghost s: Sys) returns (ghost steps: seq<Step>, ghost t: Sys)
      requires IsIn(s) && s.flush.Idle? && Sound(s)
      modifies this`epoch, this`durable, this`gen, this`members, this`fate, dirty
      ensures IsIn(t) && t.flush.Idle? && Sound(t) && Ran(s, steps, t)
      ensures t.states == s.states
      ensures r < nrows && !t.states[r].U? ==> Next(t, Release(r), t.(wet := t.wet + {r}))
    {
      steps, t := [], s;
      if r >= nrows {
        return;
      }
      InMap(r);
      while need[PageOf(r)] > durable
        invariant IsIn(t) && t.flush.Idle? && Sound(t) && Ran(s, steps, t)
        invariant t.states == s.states
        decreases |members|, if need[PageOf(r)] > durable then 1 else 0
      {
        ghost var rest, u;
        var ok;
        ok, rest, u := Flush(t);
        RunSound(AnyCut, t, rest, u);
        RanOn(s, steps, t, rest, u);
        steps, t := steps + rest, u;
      }
    }
  }

  function Least(a: nat, b: nat): nat {
    if a <= b then a else b
  }

  // ---- loading ------------------------------------------------------------------------------------

  /** member m's copy of the page */
  function CopyOf(imgs: seq<map<nat, Pg>>, m: nat, p: nat): Pg
    requires m < |imgs|
  {
    if p in imgs[m] then imgs[m][p] else Zero
  }

  predicate SameGen(a: Pg, b: Pg) {
    a.Good? && b.Good? && a.gen == b.gen
  }

  function ImagesOf(imgs: seq<map<nat, Pg>>): Images {
    map m: nat | m < |imgs| :: imgs[m]
  }

  /** good copies of one page and generation are the same copy */
  ghost predicate OneBody(imgs: seq<map<nat, Pg>>) {
    forall m: nat, k: nat, p: nat ::
      m < |imgs| && k < |imgs| && SameGen(CopyOf(imgs, m, p), CopyOf(imgs, k, p)) ==>
        CopyOf(imgs, m, p) == CopyOf(imgs, k, p)
  }

  lemma CopyIs(imgs: seq<map<nat, Pg>>, p: nat)
    ensures forall m: nat :: m in ImagesOf(imgs) <==> m < |imgs|
    ensures forall m: nat :: m < |imgs| ==> PgOf(ImagesOf(imgs), m, p) == CopyOf(imgs, m, p)
  {
  }

  /** the copy the loop picks is one the load may go by, and all of those say the same */
  lemma BestLoads(imgs: seq<map<nat, Pg>>, p: nat, best: Pg, bad: bool, r: nat)
    requires PageOf(r) == p && OneBody(imgs) && !best.Bad?
    requires best.Good? ==> exists m: nat :: m < |imgs| && CopyOf(imgs, m, p) == best
    requires forall m: nat :: m < |imgs| && CopyOf(imgs, m, p).Good? ==>
      best.Good? && CopyOf(imgs, m, p).gen <= best.gen
    requires bad <==> exists m: nat :: m < |imgs| && CopyOf(imgs, m, p).Bad?
    ensures LoadRow(ImagesOf(imgs), r) ==
      if best.Good? then (if r in best.body then best.body[r] else U) else if bad then N else U
  {
    var all := ImagesOf(imgs);
    CopyIs(imgs, p);
    hide ImagesOf, CopyOf, PgOf, PageOf;
    if best.Good? {
      var k: nat :| k < |imgs| && CopyOf(imgs, k, p) == best;
      assert PgOf(all, k, p).Good? && AnyGood(all, all.Keys, p);
      var m := Best(all, p);
      assert IsBest(all, all.Keys, p, m);
      assert PgOf(all, m, p) == best;
    } else {
      assert !AnyGood(all, all.Keys, p);
      if bad {
        var k: nat :| k < |imgs| && CopyOf(imgs, k, p).Bad?;
        assert PgOf(all, k, p).Bad?;
      }
    }
  }

  /** What a flush wrote is what a load reads: with every page with rows on all members as the map
      was, whichever of them come back, the map is that again. */
  lemma FlushedLoads(s: Sys, t: Sys, imgs: Images)
    requires AllWritten(s, t) && IsCut(t, imgs) && imgs != map[]
    requires forall r: nat :: r < |s.states| ==> PageOf(r) in s.dirty
    ensures LoadStates(imgs, |s.states|) == s.states
  {
    var k: nat :| k in imgs;
    forall r: nat | r < |s.states| ensures LoadRow(imgs, r) == s.states[r] {
      var p := PageOf(r);
      forall m: nat | m in imgs ensures PgOf(imgs, m, p) == Good(t.gen, Body(s.states, p)) {
        assert Possible(CellOf(t.disks[m], p), PgOf(imgs, m, p));
      }
      assert PgOf(imgs, k, p).Good? && AnyGood(imgs, imgs.Keys, p);
      assert r in Body(s.states, p);
    }
  }

  /** rk_rm_skippable */
  predicate Skippable(st: State, check: bool) {
    st.U? || (check && (st.N? || st.S?))
  }

  function Count(states: seq<State>, st: State, n: nat): nat
    requires n <= |states|
  {
    if n == 0 then 0 else Count(states, st, n - 1) + if states[n - 1] == st then 1 else 0
  }

  /** the rows below n restated */
  function RestatedTo(states: seq<State>, from: State, to: State, n: nat): (t: seq<State>)
    requires n <= |states|
    ensures |t| == |states|
  {
    if n == 0 then states
    else
      var t := RestatedTo(states, from, to, n - 1);
      if states[n - 1] == from then t[n - 1 := to] else t
  }

  lemma {:induction false} RestatedAt(states: seq<State>, from: State, to: State, n: nat, q: nat)
    requires n <= |states| && q < |states|
    ensures RestatedTo(states, from, to, n)[q] == if q < n && states[q] == from then to else states[q]
  {
    if n > 0 {
      RestatedAt(states, from, to, n - 1, q);
    }
  }

  lemma RestateStep(states: seq<State>, from: State, to: State, r: nat)
    requires r < |states|
    ensures RestatedTo(states, from, to, r)[r] == states[r]
    ensures var t := RestatedTo(states, from, to, r);
      RestatedTo(states, from, to, r + 1) == if states[r] == from then t[r := to] else t
    ensures Count(states, from, r + 1) == Count(states, from, r) + if states[r] == from then 1 else 0
    ensures PagesIn(states, from, r + 1) == PagesIn(states, from, r) + if states[r] == from then {PageOf(r)} else {}
  {
    RestatedAt(states, from, to, r, r);
  }

  lemma RestateStart(states: seq<State>, from: State, to: State)
    ensures RestatedTo(states, from, to, 0) == states && Count(states, from, 0) == 0 && PagesIn(states, from, 0) == {}
  {
  }

  lemma RestatedAll(states: seq<State>, from: State, to: State)
    ensures RestatedTo(states, from, to, |states|) == RowTrust.Restated(states, from, to)
  {
    forall q: nat | q < |states|
      ensures RestatedTo(states, from, to, |states|)[q] == RowTrust.Restated(states, from, to)[q]
    {
      RestatedAt(states, from, to, |states|, q);
    }
  }

  /** the pages with a row in this state, of rows below n */
  function PagesIn(states: seq<State>, st: State, n: nat): set<nat>
    requires n <= |states|
  {
    if n == 0 then {} else PagesIn(states, st, n - 1) + if states[n - 1] == st then {PageOf(n - 1)} else {}
  }

  /** rows that start before the end of the pass */
  lemma RowsIn(q: nat, cs: nat, max: nat)
    requires cs > 0
    ensures q * cs < max <==> q < (max + cs - 1) / cs
  {
    Arith.QuotientBound(max + cs - 1, q + 1, cs);
    Arith.MulSucc(q, cs);
  }

  /** a later row starts past a sector of an earlier one */
  lemma RowAfter(sector: nat, cs: nat, r: nat)
    requires cs > 0 && r > sector / cs
    ensures r * cs > sector
  {
    Arith.QuotientBound(sector, r, cs);
  }

  lemma RowOrder(a: nat, b: nat, rs: nat)
    requires a <= b && rs > 0
    ensures a / rs <= b / rs
  {
    Arith.QuotientBound(a, b / rs + 1, rs);
    Arith.QuotientBound(b, b / rs + 1, rs);
  }
}
