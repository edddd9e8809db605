/** Recovery from a log that is itself torn: the stop may have come while the unit's partial parity
    was being written, so that some entries' checksums match and others' do not
    (km/raid_km-ppl.c:1226-1268).  An entry that matches is recovered as if the others were not
    there; the rows of one that does not are left as they are. */
module PplTorn {
  import opened Arith
  import opened PplGeometry
  import opened PplLog
  import opened PplRecover
  import opened PplDecode
  import opened PplRows
  import opened PplClosed
  import opened PplHole

  /** where the partial parity of entry i starts in the log, whatever the log holds */
  function PosOf(groups: seq<seq<Stripe>>, i: nat): nat
    requires i <= |groups|
  {
    |PpOf(Join(groups[..i]))|
  }

  /** the log holds what entry i's checksum covers */
  ghost predicate Intact(groups: seq<seq<Stripe>>, log: seq<bv8>, i: nat) {
    i < |groups| && LogHolds(log, PosOf(groups, i), groups[i])
  }

  /** the rows of the intact entries among the first i */
  ghost function Kept(groups: seq<seq<Stripe>>, log: seq<bv8>, i: nat): seq<Stripe>
    requires i <= |groups|
  {
    if i == 0 then [] else Kept(groups, log, i - 1) + if Intact(groups, log, i - 1) then groups[i - 1] else []
  }

  ghost predicate IntactUniform(groups: seq<seq<Stripe>>, log: seq<bv8>) {
    forall i: nat :: Intact(groups, log, i) ==> Uniform(groups[i])
  }

  // ---- where a row of the unit is ----------------------------------------------------------------

  /** sh is row b of intact entry x */
  ghost predicate RowOf(groups: seq<seq<Stripe>>, log: seq<bv8>, x: nat, b: nat, sh: Stripe) {
    Intact(groups, log, x) && b < |groups[x]| && groups[x][b] == sh
  }

  lemma {:induction false} KeptFrom(groups: seq<seq<Stripe>>, log: seq<bv8>, i: nat, a: nat)
    requires i <= |groups| && a < |Kept(groups, log, i)|
    ensures exists x: nat, b: nat :: x < i && RowOf(groups, log, x, b, Kept(groups, log, i)[a])
  {
    var n := |Kept(groups, log, i - 1)|;
    if a < n {
      KeptFrom(groups, log, i - 1, a);
      var x: nat, b: nat :| x < i - 1 && RowOf(groups, log, x, b, Kept(groups, log, i - 1)[a]);
      assert RowOf(groups, log, x, b, Kept(groups, log, i)[a]);
    } else {
      assert RowOf(groups, log, i - 1, a - n, Kept(groups, log, i)[a]);
    }
  }

  lemma {:induction false} KeptHas(groups: seq<seq<Stripe>>, log: seq<bv8>, i: nat, x: nat, b: nat) returns (a: nat)
    requires x < i <= |groups| && Intact(groups, log, x) && b < |groups[x]|
    ensures a < |Kept(groups, log, i)| && Kept(groups, log, i)[a] == groups[x][b]
  {
    hide Intact;
    if x == i - 1 {
      a := |Kept(groups, log, i - 1)| + b;
    } else {
      a := KeptHas(groups, log, i - 1, x, b);
    }
  }

  /** rows of the unit are different pages */
  predicate Differ(a: Stripe, b: Stripe) {
    a.row != b.row || a.off != b.off
  }

  lemma {:induction false} RowsDiffer(groups: seq<seq<Stripe>>, i: nat, b: nat, i': nat, b': nat)
    requires Distinct(Join(groups)) && i < |groups| && b < |groups[i]| && i' < |groups| && b' < |groups[i']|
    requires i < i' || (i == i' && b < b')
    ensures Differ(groups[i][b], groups[i'][b'])
  {
    NthIs(groups, i, b);
    NthIs(groups, i', b');
    if i < i' {
      NthApart(groups, i, b, i');
    }
  }

  lemma {:induction false} KeptDistinct(groups: seq<seq<Stripe>>, log: seq<bv8>, i: nat)
    requires i <= |groups| && Distinct(Join(groups))
    ensures Distinct(Kept(groups, log, i))
  {
    if i > 0 {
      KeptDistinct(groups, log, i - 1);
      var kept, n := Kept(groups, log, i), |Kept(groups, log, i - 1)|;
      hide Intact;
      forall a: nat, b: nat | a < b < |kept| ensures Differ(kept[a], kept[b]) {
        if a >= n {
          RowsDiffer(groups, i - 1, a - n, i - 1, b - n);
        } else if b >= n {
          KeptFrom(groups, log, i - 1, a);
          var x: nat, y: nat :| x < i - 1 && RowOf(groups, log, x, y, Kept(groups, log, i - 1)[a]);
          RowsDiffer(groups, x, y, i - 1, b - n);
        }
      }
    }
  }

  lemma {:induction false} KeptOk(g: Geom, io: IoUnit, groups: seq<seq<Stripe>>, log: seq<bv8>, i: nat)
    requires UnitOk(g, io, groups) && i <= |groups|
    ensures AllOk(g, Kept(groups, log, i)) && PagesOk(g, Kept(groups, log, i))
  {
    forall a: nat | a < |Kept(groups, log, i)| ensures StripeOk(g, Kept(groups, log, i)[a]) {
      KeptFrom(groups, log, i, a);
      var x: nat, b: nat :| x < i && RowOf(groups, log, x, b, Kept(groups, log, i)[a]);
      assert Describes(g, io.entries[x], groups[x]);
    }
  }

  // ---- one entry ------------------------------------------------------------------------------------

  /** the checksum says which */
  lemma SealTells(g: Geom, e: Entry, rows: seq<Stripe>, log: seq<bv8>, pos: nat)
    requires Describes(g, e, rows) && pos + |PpOf(rows)| <= |log|
    ensures e.ppSize / 512 == |PpOf(rows)|
    ensures LogSlice(log, pos, e.ppSize / 512) == e.checked <==> LogHolds(log, pos, rows)
  {
    PagesSized(g, e, rows);
    PpSize(g, rows);
    assert e.ppSize == Partials(rows) * g.m * PAGE_SIZE && e.checked == PpOf(rows);
    SealSize(Partials(rows), g.m);
    var n := |PpOf(rows)|;
    assert e.ppSize / 512 == n;
    hide PpOf, Describes;
    forall t: nat | t < n
      ensures LogSlice(log, pos, n)[t] == log[pos..pos + n][t]
    {
      SliceAt(log, pos, n, t);
    }
    assert LogSlice(log, pos, n) == log[pos..pos + n];
  }

  /** entries before and after lie where they were logged */
  lemma Placed(groups: seq<seq<Stripe>>, i: nat)
    requires i < |groups|
    ensures PosOf(groups, i + 1) == PosOf(groups, i) + |PpOf(groups[i])| <= |PpOf(Join(groups))|
  {
    PpPlaced(groups, i);
    PpWithin(groups, i + 1);
  }

  lemma {:induction false} PpWithin(groups: seq<seq<Stripe>>, i: nat)
    requires i <= |groups|
    ensures |PpOf(Join(groups[..i]))| <= |PpOf(Join(groups))|
    decreases |groups| - i
  {
    if i < |groups| {
      PpPlaced(groups, i);
      PpWithin(groups, i + 1);
    } else {
      assert groups[..i] == groups;
    }
  }

  lemma EntryTakes(g: Geom, code: Code, members: seq<Member>, log: seq<bv8>, unit0: nat, entries: seq<Entry>, i: nat,
          pos: nat, c: Content)
    requires Ready(g, members) && 1 <= unit0 && i < |entries|
    requires LogSlice(log, pos, entries[i].ppSize / 512) != entries[i].checked
    ensures EntriesFrom(g, code, members, log, unit0, entries, i, pos, c)
         == EntriesFrom(g, code, members, log, unit0, entries, i + 1, pos + entries[i].ppSize / 512, c)
  {
    hide RowsFrom, Decode, LogSlice;
  }

  /** one intact entry, with the earlier ones recovered */
  lemma IntactEntry(g: Geom, code: Code, members: seq<Member>, log: seq<bv8>, unit0: nat, io: IoUnit,
          groups: seq<seq<Stripe>>, i: nat, now: Content, c: Content)
    requires Ready(g, members) && UnitOk(g, io, groups) && 1 <= unit0 && BlockOk(unit0)
    requires Intact(groups, log, i) && Uniform(groups[i])
    requires PagesOk(g, Kept(groups, log, i)) && Result(g, code, members, Kept(groups, log, i), now, c)
    ensures var e := Stored(unit0, io.entries[i]); 1 <= Decode(g, unit0, e).unit
    ensures PagesOk(g, Kept(groups, log, i + 1))
    ensures var e := Stored(unit0, io.entries[i]);
            var out := RowsFrom(g, code, members, log, PosOf(groups, i), e, Decode(g, unit0, e), 0, c);
            out.sane && Result(g, code, members, Kept(groups, log, i + 1), now, out.content)
  {
    var rows, past, e := groups[i], Kept(groups, log, i), io.entries[i];
    var e' := Stored(unit0, e);
    assert Describes(g, e, rows) && e' == e.(dataSector := e'.dataSector) && 0 * PAGE == 0;
    assert past + rows[..0] == past && Kept(groups, log, i + 1) == past + rows;
    assert LogHolds(log, PosOf(groups, i), rows);
    hide *;
    UniformDecodes(g, unit0, e, rows);
    KeptOk(g, io, groups, log, i + 1);
    RowsAre(g, code, members, log, PosOf(groups, i), e, rows, e', Decode(g, unit0, e'), past, 0, now, c);
  }

  lemma EntrySeal(g: Geom, unit0: nat, io: IoUnit, groups: seq<seq<Stripe>>, log: seq<bv8>, i: nat)
    requires UnitOk(g, io, groups) && 1 <= unit0 && i < |groups| && |PpOf(io.stripes)| <= |log|
    ensures i < |io.entries| && i < |StoredAll(unit0, io.entries)|
    ensures var e := StoredAll(unit0, io.entries)[i];
      && e == Stored(unit0, io.entries[i])
      && (LogSlice(log, PosOf(groups, i), e.ppSize / 512) == e.checked <==> Intact(groups, log, i))
      && PosOf(groups, i) + e.ppSize / 512 == PosOf(groups, i + 1)
  {
    assert Describes(g, io.entries[i], groups[i]) && io.stripes == Join(groups);
    Placed(groups, i);
    SealTells(g, io.entries[i], groups[i], log, PosOf(groups, i));
    hide Describes, LogHolds, LogSlice;
  }

  lemma KeptSkips(groups: seq<seq<Stripe>>, log: seq<bv8>, i: nat)
    requires i < |groups| && !Intact(groups, log, i)
    ensures Kept(groups, log, i + 1) == Kept(groups, log, i)
  {
    hide Intact;
  }

  /** Recovery from entry i on. */
  lemma {:induction false} TornEntries(g: Geom, code: Code, members: seq<Member>, log: seq<bv8>, unit0: nat, io: IoUnit,
          groups: seq<seq<Stripe>>, i: nat, now: Content, c: Content)
    requires Ready(g, members) && UnitOk(g, io, groups) && 1 <= unit0 && BlockOk(unit0)
    requires IntactUniform(groups, log) && |PpOf(io.stripes)| <= |log| && i <= |groups|
    requires PagesOk(g, Kept(groups, log, i)) && Result(g, code, members, Kept(groups, log, i), now, c)
    ensures PagesOk(g, Kept(groups, log, |groups|))
    ensures var out := EntriesFrom(g, code, members, log, unit0, StoredAll(unit0, io.entries), i, PosOf(groups, i), c);
            out.sane && Result(g, code, members, Kept(groups, log, |groups|), now, out.content)
    decreases |groups| - i
  {
    hide *;
    var es := StoredAll(unit0, io.entries);
    UnitShape(g, io, groups);
    if i == |groups| {
      EntryStep(g, code, members, log, unit0, es, i, PosOf(groups, i), c);
    } else {
      EntrySeal(g, unit0, io, groups, log, i);
      if Intact(groups, log, i) {
        IntactIsUniform(groups, log, i);
        IntactEntry(g, code, members, log, unit0, io, groups, i, now, c);
        var out := RowsFrom(g, code, members, log, PosOf(groups, i), es[i], Decode(g, unit0, es[i]), 0, c);
        EntryTaken(g, code, members, log, unit0, es, i, PosOf(groups, i), c);
        TornEntries(g, code, members, log, unit0, io, groups, i + 1, now, out.content);
      } else {
        KeptSkips(groups, log, i);
        EntryTakes(g, code, members, log, unit0, es, i, PosOf(groups, i), c);
        TornEntries(g, code, members, log, unit0, io, groups, i + 1, now, c);
      }
    }
  }

  lemma IntactIsUniform(groups: seq<seq<Stripe>>, log: seq<bv8>, i: nat)
    requires IntactUniform(groups, log) && Intact(groups, log, i)
    ensures i < |groups| && Uniform(groups[i])
  {
  }

  lemma EntryTaken(g: Geom, code: Code, members: seq<Member>, log: seq<bv8>, unit0: nat, entries: seq<Entry>, i: nat,
          pos: nat, c: Content)
    requires Ready(g, members) && 1 <= unit0 && i < |entries| && 1 <= Decode(g, unit0, entries[i]).unit
    requires LogSlice(log, pos, entries[i].ppSize / 512) == entries[i].checked
    requires RowsFrom(g, code, members, log, pos, entries[i], Decode(g, unit0, entries[i]), 0, c).sane
    ensures var out := RowsFrom(g, code, members, log, pos, entries[i], Decode(g, unit0, entries[i]), 0, c);
      EntriesFrom(g, code, members, log, unit0, entries, i, pos, c)
      == EntriesFrom(g, code, members, log, unit0, entries, i + 1, pos + entries[i].ppSize / 512, out.content)
  {
    hide RowsFrom, Decode, LogSlice;
  }

  // ---- whole recoveries -----------------------------------------------------------------------------

  /** recovery of the unit's entries from what the log holds */
  ghost function RecoveredFrom(g: Geom, code: Code, members: seq<Member>, log: seq<bv8>, unit0: nat, io: IoUnit,
          now: Content): Outcome
    requires Ready(g, members) && 1 <= unit0
  {
    EntriesFrom(g, code, members, log, unit0, StoredAll(unit0, io.entries), 0, 0, now)
  }

  lemma StartKept(g: Geom, code: Code, members: seq<Member>, groups: seq<seq<Stripe>>, log: seq<bv8>, now: Content)
    requires Ready(g, members)
    ensures PosOf(groups, 0) == 0 && PagesOk(g, Kept(groups, log, 0))
    ensures Result(g, code, members, Kept(groups, log, 0), now, now)
  {
    assert groups[..0] == [] && Join([]) == [] && PpOf([]) == [];
  }

  /** The rows of the entries whose partial parity is in the log are recovered, in order, and
      nothing else is done. */
  lemma RecoveredIsKept(g: Geom, code: Code, members: seq<Member>, log: seq<bv8>, unit0: nat, io: IoUnit,
          groups: seq<seq<Stripe>>, now: Content)
    requires Ready(g, members) && UnitOk(g, io, groups) && 1 <= unit0 && BlockOk(unit0)
    requires IntactUniform(groups, log) && |PpOf(io.stripes)| <= |log|
    ensures AllOk(g, Kept(groups, log, |groups|)) && PagesOk(g, Kept(groups, log, |groups|))
    ensures var out := RecoveredFrom(g, code, members, log, unit0, io, now);
            out.sane && Result(g, code, members, Kept(groups, log, |groups|), now, out.content)
  {
    hide *;
    StartKept(g, code, members, groups, log, now);
    KeptOk(g, io, groups, log, |groups|);
    TornEntries(g, code, members, log, unit0, io, groups, 0, now, now);
    RecoveredFromIs(g, code, members, log, unit0, io, now);
  }

  lemma RecoveredFromIs(g: Geom, code: Code, members: seq<Member>, log: seq<bv8>, unit0: nat, io: IoUnit, now: Content)
    requires Ready(g, members) && 1 <= unit0
    ensures RecoveredFrom(g, code, members, log, unit0, io, now)
         == EntriesFrom(g, code, members, log, unit0, StoredAll(unit0, io.entries), 0, 0, now)
  {
  }

  /** Whatever the log holds, and whatever part of the writes that were logged reached the members:
      after recovery the rows of an entry whose partial parity is in the log have parities that
      encode their data, if their modified members can be read. */
  lemma TornLogCloses(g: Geom, code: Code, members: seq<Member>, log: seq<bv8>, unit0: nat, io: IoUnit,
          groups: seq<seq<Stripe>>, before: Content, now: Content, i: nat, b: nat)
    requires Ready(g, members) && UnitOk(g, io, groups) && 1 <= unit0 && BlockOk(unit0)
    requires IntactUniform(groups, log) && |PpOf(io.stripes)| <= |log| && Linear(code) && Distinct(io.stripes)
    requires AllOk(g, Kept(groups, log, |groups|)) && Torn(g, code, Kept(groups, log, |groups|), before, now)
    requires i < |groups| && LogHolds(log, |PpOf(Join(groups[..i]))|, groups[i]) && b < |groups[i]|
    requires AllReadable(g, members, groups[i][b])
    ensures RecoveredFrom(g, code, members, log, unit0, io, now).sane
    ensures Sound(g, code, members, RecoveredFrom(g, code, members, log, unit0, io, now).content, groups[i][b])
  {
    var kept, after := Kept(groups, log, |groups|), RecoveredFrom(g, code, members, log, unit0, io, now).content;
    assert Intact(groups, log, i);
    UnitShape(g, io, groups);
    RecoveredIsKept(g, code, members, log, unit0, io, groups, now);
    KeptDistinct(groups, log, |groups|);
    var a := KeptHas(groups, log, |groups|, i, b);
    hide Kept, RecoveredFrom, UnitOk, Torn, Result, Distinct, AllReadable, Linear, IntactUniform, SoundByte, LogHolds;
    forall j: nat, t: nat | j < g.m && t < PAGE ensures SoundByte(g, code, members, after, groups[i][b], j, t) {
      RowSound(g, code, members, kept, before, now, after, a, j, t);
    }
  }

  /** ... and the rows of an entry whose partial parity is not in the log come through recovery
      as they were, on every member. */
  lemma TornEntryStays(g: Geom, code: Code, members: seq<Member>, log: seq<bv8>, unit0: nat, io: IoUnit,
          groups: seq<seq<Stripe>>, now: Content, i: nat, b: nat, slot: nat, t: nat)
    requires Ready(g, members) && UnitOk(g, io, groups) && 1 <= unit0 && BlockOk(unit0)
    requires IntactUniform(groups, log) && |PpOf(io.stripes)| <= |log| && Distinct(io.stripes)
    requires i < |groups| && !LogHolds(log, |PpOf(Join(groups[..i]))|, groups[i]) && b < |groups[i]| && t < PAGE
    ensures At(RecoveredFrom(g, code, members, log, unit0, io, now).content, slot, SectorOf(g, groups[i][b]) + t)
         == At(now, slot, SectorOf(g, groups[i][b]) + t)
  {
    var kept, q := Kept(groups, log, |groups|), SectorOf(g, groups[i][b]) + t;
    RecoveredIsKept(g, code, members, log, unit0, io, groups, now);
    UncoveredStays(g, code, members, kept, now, slot, q);
    if a: nat :| a < |kept| && Covers(g, members, kept[a], slot, q) {
      KeptFrom(groups, log, |groups|, a);
      var x: nat, y: nat :| x < |groups| && RowOf(groups, log, x, y, kept[a]);
      RowsApart(g, io, groups, i, b, x, y, q);
      assert false;
    }
  }

  /** A row whose data write had not begun, as none does before its partial parity is in the log,
      keeps good parity. */
  lemma {:induction false} TornEntrySound(g: Geom, code: Code, members: seq<Member>, log: seq<bv8>, unit0: nat,
          io: IoUnit, groups: seq<seq<Stripe>>, now: Content, i: nat, b: nat)
    requires Ready(g, members) && UnitOk(g, io, groups) && 1 <= unit0 && BlockOk(unit0)
    requires IntactUniform(groups, log) && |PpOf(io.stripes)| <= |log| && Distinct(io.stripes)
    requires i < |groups| && !LogHolds(log, |PpOf(Join(groups[..i]))|, groups[i]) && b < |groups[i]|
    requires Sound(g, code, members, now, groups[i][b])
    ensures Sound(g, code, members, RecoveredFrom(g, code, members, log, unit0, io, now).content, groups[i][b])
  {
    hide *;
    ReadyShape(g, members);
    AllBytesStay(g, code, members, log, unit0, io, groups, now, i, b);
    SoundStays(g, code, members, now, RecoveredFrom(g, code, members, log, unit0, io, now).content, groups[i][b]);
  }

  lemma {:induction false} ByteStays(g: Geom, code: Code, members: seq<Member>, log: seq<bv8>, unit0: nat, io: IoUnit,
          groups: seq<seq<Stripe>>, now: Content, i: nat, b: nat, slot: nat, t: nat)
    requires Ready(g, members) && UnitOk(g, io, groups) && 1 <= unit0 && BlockOk(unit0)
    requires IntactUniform(groups, log) && |PpOf(io.stripes)| <= |log| && Distinct(io.stripes)
    requires i < |groups| && !LogHolds(log, |PpOf(Join(groups[..i]))|, groups[i]) && b < |groups[i]| && t < PAGE
    ensures SameByte(g, RecoveredFrom(g, code, members, log, unit0, io, now).content, now, groups[i][b], slot, t)
  {
    hide *;
    TornEntryStays(g, code, members, log, unit0, io, groups, now, i, b, slot, t);
    SameByteIs(g, RecoveredFrom(g, code, members, log, unit0, io, now).content, now, groups[i][b], slot, t);
  }

  lemma {:induction false} AllBytesStay(g: Geom, code: Code, members: seq<Member>, log: seq<bv8>, unit0: nat,
          io: IoUnit, groups: seq<seq<Stripe>>, now: Content, i: nat, b: nat)
    requires Ready(g, members) && UnitOk(g, io, groups) && 1 <= unit0 && BlockOk(unit0)
    requires IntactUniform(groups, log) && |PpOf(io.stripes)| <= |log| && Distinct(io.stripes)
    requires i < |groups| && !LogHolds(log, |PpOf(Join(groups[..i]))|, groups[i]) && b < |groups[i]|
    ensures var after := RecoveredFrom(g, code, members, log, unit0, io, now).content;
      forall slot: nat, t: nat :: t < PAGE ==> SameByte(g, after, now, groups[i][b], slot, t)
  {
    hide *;
    forall slot: nat, t: nat | t < PAGE
      ensures SameByte(g, RecoveredFrom(g, code, members, log, unit0, io, now).content, now, groups[i][b], slot, t)
    {
      ByteStays(g, code, members, log, unit0, io, groups, now, i, b, slot, t);
    }
  }

  predicate SameByte(g: Geom, a: Content, b: Content, sh: Stripe, slot: nat, t: nat) {
    At(a, slot, SectorOf(g, sh) + t) == At(b, slot, SectorOf(g, sh) + t)
  }

  lemma SameByteIs(g: Geom, a: Content, b: Content, sh: Stripe, slot: nat, t: nat)
    ensures SameByte(g, a, b, sh, slot, t) <==> At(a, slot, SectorOf(g, sh) + t) == At(b, slot, SectorOf(g, sh) + t)
  {
  }

  /** parity is as good as it was where neither it nor the data has changed */
  lemma SoundStays(g: Geom, code: Code, members: seq<Member>, now: Content, after: Content, sh: Stripe)
    requires Ready(g, members) && Sound(g, code, members, now, sh)
    requires forall slot: nat, t: nat :: t < PAGE ==> SameByte(g, after, now, sh, slot, t)
    ensures Sound(g, code, members, after, sh)
  {
    ReadyShape(g, members);
    forall j: nat, t: nat | j < g.m && t < PAGE ensures SoundByte(g, code, members, after, sh, j, t) {
      assert SoundByte(g, code, members, now, sh, j, t);
      forall col: nat | col < g.k ensures DataAt(g, after, sh, col, t) == DataAt(g, now, sh, col, t) {
        assert SameByte(g, after, now, sh, CellSlot(g, sh, col), t);
      }
      assert SameByte(g, after, now, sh, ParitySlot(g, PdIdx(g, sh.row), j), t);
      hide CellSlot, ParitySlot, Right, SameByte;
      RightSame(g, code, after, now, sh, j, t);
    }
  }

  /** Recovery changes only parity of readable rows of entries whose partial parity is in the log. */
  lemma OnlyIntactWritten(g: Geom, code: Code, members: seq<Member>, log: seq<bv8>, unit0: nat, io: IoUnit,
          groups: seq<seq<Stripe>>, now: Content, slot: nat, q: nat)
    requires Ready(g, members) && UnitOk(g, io, groups) && 1 <= unit0 && BlockOk(unit0)
    requires IntactUniform(groups, log) && |PpOf(io.stripes)| <= |log|
    requires At(RecoveredFrom(g, code, members, log, unit0, io, now).content, slot, q) != At(now, slot, q)
    ensures exists i: nat, b: nat, sh :: RowOf(groups, log, i, b, sh) && Covers(g, members, sh, slot, q)
  {
    var kept := Kept(groups, log, |groups|);
    RecoveredIsKept(g, code, members, log, unit0, io, groups, now);
    UncoveredStays(g, code, members, kept, now, slot, q);
    var a: nat :| a < |kept| && Covers(g, members, kept[a], slot, q);
    KeptFrom(groups, log, |groups|, a);
    var x: nat, y: nat :| x < |groups| && RowOf(groups, log, x, y, kept[a]);
    assert RowOf(groups, log, x, y, kept[a]) && Covers(g, members, kept[a], slot, q);
  }
}
