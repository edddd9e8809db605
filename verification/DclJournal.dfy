/** The declustered journal block, km/raid_km-dcl.c: spare assignments and the
    population mark, written to the same slot of every live member, in version
    2 while at most one assignment is active and version 3 from two on. The
    block's seal is ideal: a block is whole or it is not a block. */
module DclJournal {

  const MAX_ASSIGN: nat := 127

  datatype State = Nothing | Populating | Populated | Copying

  /** one row of the assignment table */
  datatype Assign = Assign(disk: nat, spare: nat, state: State, mark: nat)

  datatype Geom = Geom(pool: nat, width: nat, parity: nat, spares: nat, nbase: nat, seed: nat)

  /** a sealed block: version, geometry, generation, the single legacy
      assignment and the table */
  datatype Block = Block(version: nat, geom: Geom, gen: nat, legacy: Assign, table: seq<Assign>)

  /** what the array says it is: member count and layout, the layout before a
      reshape, and whether one is under way */
  datatype Array = Array(disks: nat, width: nat, parity: nat, spares: nat,
                         oldWidth: nat, oldParity: nat, oldSpares: nat, reshaping: bool)

  predicate InFlight(st: State) {
    st == Populating || st == Copying
  }

  /** the layout word keeps the spare columns to seven bits */
  predicate ArrayOk(md: Array) {
    md.spares <= MAX_ASSIGN && md.oldSpares <= MAX_ASSIGN
  }

  predicate GeomFits(md: Array, ge: Geom) {
    && (ge.pool == md.disks || md.reshaping)
    && ((ge.width == md.width && ge.parity == md.parity && ge.spares == md.spares)
        || (md.reshaping && ge.width == md.oldWidth && ge.parity == md.oldParity && ge.spares == md.oldSpares))
    && 1 <= ge.nbase <= 64
  }

  predicate EntryOk(ge: Geom, a: Assign) {
    a.state != Nothing && a.disk < ge.pool && a.spare < ge.spares
  }

  /** the table of a block may be loaded: active entries, no disk or spare
      column twice, at most one pass under way */
  ghost predicate TableOk(ge: Geom, table: seq<Assign>) {
    && (forall i: nat :: i < |table| ==> EntryOk(ge, table[i]))
    && (forall i: nat, k: nat :: k < i < |table| ==> table[k].disk != table[i].disk && table[k].spare != table[i].spare)
    && (forall i: nat, k: nat :: k < i < |table| ==> !(InFlight(table[k].state) && InFlight(table[i].state)))
  }

  ghost predicate Accepts(md: Array, b: Block) {
    && 1 <= b.version <= 3
    && GeomFits(md, b.geom)
    && (b.version == 2 && b.legacy.state != Nothing ==> b.legacy.disk < b.geom.pool && b.legacy.spare < b.geom.spares)
    && (b.version == 3 ==> |b.table| <= b.geom.spares && |b.table| <= MAX_ASSIGN && TableOk(b.geom, b.table))
  }

  /** some entry before i has entry i's disk or spare column */
  method Repeats(table: seq<Assign>, i: nat) returns (found: bool)
    requires i < |table|
    ensures found <==> exists k: nat :: k < i && (table[k].disk == table[i].disk || table[k].spare == table[i].spare)
  {
    found := false;
    for k := 0 to i
      invariant found <==> exists x: nat :: x < k && (table[x].disk == table[i].disk || table[x].spare == table[i].spare)
    {
      if table[k].disk == table[i].disk || table[k].spare == table[i].spare {
        found := true;
      }
    }
  }

  /** the table check of rkdcl_verify_blk, entry by entry */
  method VerifyTable(ge: Geom, table: seq<Assign>) returns (ok: bool)
    ensures ok <==> TableOk(ge, table)
  {
    var flying := 0;
    for i := 0 to |table|
      invariant TableOk(ge, table[..i])
      invariant flying == 0 ==> forall k: nat :: k < i ==> !InFlight(table[k].state)
      invariant flying > 0 ==> exists k: nat :: k < i && InFlight(table[k].state)
    {
      if table[i].state == Nothing {
        assert !EntryOk(ge, table[i]);
        return false;
      }
      if InFlight(table[i].state) {
        flying := flying + 1;
        if flying > 1 {
          var k: nat :| k < i && InFlight(table[k].state);
          return false;
        }
      }
      if table[i].disk >= ge.pool || table[i].spare >= ge.spares {
        assert !EntryOk(ge, table[i]);
        return false;
      }
      var again := Repeats(table, i);
      if again {
        return false;
      }
      assert forall x: nat :: x < i ==> table[..i + 1][x] == table[..i][x];
    }
    assert table[..|table|] == table;
    ok := true;
  }

  /** rkdcl_verify_blk */
  method Verify(md: Array, b: Block) returns (ok: bool)
    ensures ok <==> Accepts(md, b)
  {
    if b.version < 1 || 3 < b.version || !GeomFits(md, b.geom) {
      return false;
    }
    if b.version == 2 && b.legacy.state != Nothing && (b.legacy.disk >= b.geom.pool || b.legacy.spare >= b.geom.spares) {
      return false;
    }
    if b.version == 3 {
      if |b.table| > b.geom.spares || |b.table| > MAX_ASSIGN {
        return false;
      }
      ok := VerifyTable(b.geom, b.table);
    } else {
      ok := true;
    }
  }

  // ---- what an array keeps in core ----

  datatype Reb = Reb(disk: nat, spare: nat, state: State)

  /** pop is the assignment whose pass is under way, -1 for none; journalMark
      the mark last journalled for it */
  datatype Conf = Conf(geom: Geom, reb: seq<Reb>, pop: int, gen: nat, journalMark: nat, size: nat)

  /** what arming, completion and retiring keep true of the assignments */
  ghost predicate ConfOk(md: Array, c: Conf) {
    && ArrayOk(md)
    && GeomFits(md, c.geom)
    && |c.reb| <= c.geom.spares
    && -1 <= c.pop < |c.reb|
    && (forall i: nat :: i < |c.reb| ==>
          c.reb[i].state != Nothing && c.reb[i].disk < c.geom.pool && c.reb[i].spare < c.geom.spares
          && (InFlight(c.reb[i].state) <==> c.pop == i))
    && (forall i: nat, k: nat :: k < i < |c.reb| ==> c.reb[k].disk != c.reb[i].disk && c.reb[k].spare != c.reb[i].spare)
  }

  /** entry i as the block shows it: only the pass under way has a mark short of
      the device */
  function Shown(c: Conf, i: nat): Assign
    requires i < |c.reb|
  {
    Assign(c.reb[i].disk, c.reb[i].spare, c.reb[i].state, if c.pop == i then c.journalMark else c.size)
  }

  const NO_ASSIGN: Assign := Assign(0xFFFF_FFFF, 0, Nothing, 0)

  function Built(c: Conf): Block {
    Block(if |c.reb| >= 2 then 3 else 2, c.geom, c.gen,
          if |c.reb| > 0 then Shown(c, 0) else NO_ASSIGN,
          if |c.reb| >= 2 then seq(|c.reb|, i requires 0 <= i < |c.reb| => Shown(c, i)) else [])
  }

  /** rkdcl_build_blk */
  method Build(c: Conf) returns (b: Block)
    ensures b == Built(c)
  {
    var legacy := NO_ASSIGN;
    if |c.reb| > 0 {
      legacy := Assign(c.reb[0].disk, c.reb[0].spare, c.reb[0].state, if c.pop == 0 then c.journalMark else c.size);
    }
    var table: seq<Assign> := [];
    if |c.reb| >= 2 {
      for i := 0 to |c.reb|
        invariant |table| == i
        invariant forall k: nat :: k < i ==> table[k] == Shown(c, k)
      {
        var mark := if c.pop == i then c.journalMark else c.size;
        table := table + [Assign(c.reb[i].disk, c.reb[i].spare, c.reb[i].state, mark)];
      }
    }
    b := Block(if |c.reb| >= 2 then 3 else 2, c.geom, c.gen, legacy, table);
    assert |c.reb| >= 2 ==> table == Built(c).table;
  }

  /** Every block an array builds is one it accepts. */
  lemma BuiltAccepted(md: Array, c: Conf)
    requires ConfOk(md, c)
    ensures Accepts(md, Built(c))
  {
    var b := Built(c);
    if |c.reb| >= 2 {
      forall i: nat | i < |b.table|
        ensures EntryOk(b.geom, b.table[i]) && b.table[i] == Shown(c, i)
      {
        assert b.table[i] == Shown(c, i);
      }
    }
  }

  // ---- loading ----

  /** what a block restores: assignments, pass and mark */
  datatype Restored = Restored(geom: Geom, reb: seq<Reb>, pop: int, gen: nat, mark: nat)

  function GenOf(b: Block): nat {
    if b.version >= 2 then b.gen else 0
  }

  function RebOf(a: Assign): Reb {
    Reb(a.disk, a.spare, a.state)
  }

  /** index of the last entry in flight, -1 for none */
  function PopOf(reb: seq<Reb>): int {
    if reb == [] then -1
    else if InFlight(reb[|reb| - 1].state) then |reb| - 1
    else PopOf(reb[..|reb| - 1])
  }

  lemma {:induction false} PopIs(reb: seq<Reb>, pop: int)
    requires -1 <= pop < |reb|
    requires forall i: nat :: i < |reb| ==> (InFlight(reb[i].state) <==> pop == i)
    ensures PopOf(reb) == pop
  {
    if reb != [] && pop != |reb| - 1 {
      PopIs(reb[..|reb| - 1], pop);
    }
  }

  lemma {:induction false} PopRange(reb: seq<Reb>)
    ensures -1 <= PopOf(reb) < |reb|
  {
    if reb != [] {
      PopRange(reb[..|reb| - 1]);
    }
  }

  function RebsOf(b: Block): seq<Reb> {
    if b.version == 2 && b.legacy.state != Nothing then [RebOf(b.legacy)]
    else if b.version >= 3 then seq(|b.table|, i requires 0 <= i < |b.table| => RebOf(b.table[i]))
    else []
  }

  function MarkOf(b: Block, pop: int): nat {
    if pop < 0 then 0
    else if b.version == 2 then b.legacy.mark
    else if pop < |b.table| then b.table[pop].mark
    else 0
  }

  function Restore(b: Block): Restored {
    var pop := PopOf(RebsOf(b));
    Restored(b.geom, RebsOf(b), pop, GenOf(b), MarkOf(b, pop))
  }

  /** Loading what was built gives the same assignments, pass, generation and
      journalled mark, in either version. */
  lemma RoundTrip(md: Array, c: Conf)
    requires ConfOk(md, c)
    ensures Restore(Built(c)) == Restored(c.geom, c.reb, c.pop, c.gen, if c.pop >= 0 then c.journalMark else 0)
  {
    var b := Built(c);
    var got := RebsOf(b);
    assert |got| == |c.reb|;
    forall i: nat | i < |got|
      ensures got[i] == c.reb[i]
    {
      if |c.reb| >= 2 {
        assert b.table[i] == Shown(c, i);
      }
    }
    assert got == c.reb;
    PopIs(c.reb, c.pop);
    if c.pop >= 0 && |c.reb| >= 2 {
      assert b.table[c.pop] == Shown(c, c.pop);
    }
  }

  /** the last entry in flight, where at most one is */
  lemma {:induction false} PopOfOne(reb: seq<Reb>)
    requires forall i: nat, k: nat :: k < i < |reb| ==> !(InFlight(reb[k].state) && InFlight(reb[i].state))
    ensures -1 <= PopOf(reb) < |reb|
    ensures forall i: nat :: i < |reb| ==> (InFlight(reb[i].state) <==> PopOf(reb) == i)
  {
    if reb != [] {
      PopOfOne(reb[..|reb| - 1]);
    }
  }

  /** Whatever block verify accepts, written by this code or not: what the load makes of it are
      assignments of disks of the pool to spare columns there are, none of either twice, of which
      the pass under way is the only one in flight, with its own mark; in the array's own layout
      unless a reshape is under way. */
  lemma AcceptedRestores(md: Array, b: Block)
    requires Accepts(md, b)
    ensures var r := Restore(b);
      && |r.reb| <= b.geom.spares && -1 <= r.pop < |r.reb|
      && (forall i: nat :: i < |r.reb| ==>
            r.reb[i].state != Nothing && r.reb[i].disk < b.geom.pool && r.reb[i].spare < b.geom.spares)
      && (forall i: nat :: i < |r.reb| ==>
            (r.reb[i].state == Populating || r.reb[i].state == Copying <==> r.pop == i))
      && (forall i: nat, k: nat :: k < i < |r.reb| ==>
            r.reb[k].disk != r.reb[i].disk && r.reb[k].spare != r.reb[i].spare)
      && (r.pop >= 0 ==> r.mark == if b.version == 2 then b.legacy.mark else b.table[r.pop].mark)
    ensures !md.reshaping ==>
      && b.geom.pool == md.disks && b.geom.width == md.width && b.geom.parity == md.parity
      && b.geom.spares == md.spares
    ensures Restore(b).geom == b.geom
  {
    var reb := RebsOf(b);
    PopOfOne(reb);
  }

  /** a member's slot: nothing readable, or a sealed block */
  datatype Slot = Unreadable | Holding(block: Block)

  ghost predicate Candidate(md: Array, s: Slot) {
    s.Holding? && Accepts(md, s.block)
  }

  /** block b wins the election among the slots */
  ghost predicate Wins(md: Array, slots: seq<Slot>, b: Block) {
    && (exists i: nat :: i < |slots| && Candidate(md, slots[i]) && slots[i].block == b)
    && (forall i: nat :: i < |slots| && Candidate(md, slots[i]) ==> GenOf(slots[i].block) <= GenOf(b))
  }

  /** raidkm_dcl_load: the valid block of the highest generation, restored */
  method Load(md: Array, slots: seq<Slot>) returns (ok: bool, r: Restored)
    ensures ok <==> exists i: nat :: i < |slots| && Candidate(md, slots[i])
    ensures ok ==> exists b: Block :: Wins(md, slots, b) && r == Restore(b)
  {
    var have := false;
    var best := Block(1, Geom(0, 0, 0, 0, 0, 0), 0, NO_ASSIGN, []);
    for i := 0 to |slots|
      invariant have <==> exists x: nat :: x < i && Candidate(md, slots[x])
      invariant have ==> exists x: nat :: x < i && Candidate(md, slots[x]) && slots[x].block == best
      invariant have ==> forall x: nat :: x < i && Candidate(md, slots[x]) ==> GenOf(slots[x].block) <= GenOf(best)
    {
      if slots[i].Holding? {
        var valid := Verify(md, slots[i].block);
        if valid && (!have || GenOf(slots[i].block) > GenOf(best)) {
          best := slots[i].block;
          have := true;
        }
      }
    }
    r := RestoreBlock(best);
    ok := have;
    if have {
      assert Wins(md, slots, best);
    }
  }

  /** the assignment table from the winning block */
  method RestoreBlock(b: Block) returns (r: Restored)
    ensures r == Restore(b)
  {
    var reb: seq<Reb> := [];
    var pop := -1;
    if b.version == 2 && b.legacy.state != Nothing {
      reb := [RebOf(b.legacy)];
      if InFlight(b.legacy.state) {
        pop := 0;
      }
    } else if b.version >= 3 {
      for i := 0 to |b.table|
        invariant reb == RebsOf(b)[..i]
        invariant pop == PopOf(reb)
      {
        reb := reb + [RebOf(b.table[i])];
        assert reb[..|reb| - 1] == RebsOf(b)[..i];
        if InFlight(b.table[i].state) {
          pop := i;
        }
      }
    }
    assert reb == RebsOf(b);
    PopRange(reb);
    var mark := 0;
    if pop >= 0 {
      mark := if b.version == 2 then b.legacy.mark else b.table[pop].mark;
    }
    r := Restored(b.geom, reb, pop, GenOf(b), mark);
  }
}
