/** Recovery from the partial parity log after an unclean stop,
    km/raid_km-ppl.c: each entry's geometry is decoded from its sizes, and each
    block row it covers gets all m parities back as partial parity XOR the
    encoding of the modified data now on the members. */
module PplRecover {
  import opened Arith
  import opened PplGeometry
  import opened PplLog

  datatype Member = Missing | Present(faulty: bool, inSync: bool, recoveryOffset: nat)

  predicate Readable(mb: Member, sector: nat) {
    mb.Present? && (mb.inSync || sector < mb.recoveryOffset)
  }

  predicate Writable(mb: Member) {
    mb.Present? && !mb.faulty
  }

  /** what the members hold, by slot and sector */
  type Content = map<(nat, nat), bv8>

  function At(c: Content, slot: nat, sector: nat): bv8 {
    if (slot, sector) in c then c[(slot, sector)] else 0
  }

  function ReadBlock(c: Content, slot: nat, sector: nat, unit: nat): (b: seq<bv8>)
    ensures |b| == unit
  {
    seq(unit, t requires 0 <= t => At(c, slot, sector + t))
  }

  function WriteBlock(c: Content, slot: nat, sector: nat, data: seq<bv8>): Content {
    if data == [] then c
    else var n := |data| - 1;
         WriteBlock(c, slot, sector, data[..n])[(slot, sector + n) := data[n]]
  }

  lemma {:induction false} WrittenAt(c: Content, slot: nat, sector: nat, data: seq<bv8>, s: nat, q: nat)
    ensures At(WriteBlock(c, slot, sector, data), s, q)
         == if s == slot && sector <= q < sector + |data| then data[q - sector] else At(c, s, q)
  {
    if data != [] {
      WrittenAt(c, slot, sector, data[..|data| - 1], s, q);
    }
  }

  /** coefficient maps of the code: parity j of column i, one byte at a time */
  type Code = (nat, nat, bv8) -> bv8

  ghost predicate Linear(code: Code) {
    forall j: nat, i: nat, x: bv8, y: bv8 :: code(j, i, x ^ y) == code(j, i, x) ^ code(j, i, y)
  }

  function Encode(code: Code, j: nat, col: nat -> bv8, k: nat): bv8 {
    if k == 0 then 0 else Encode(code, j, col, k - 1) ^ code(j, k - 1, col(k - 1))
  }

  /** the code at zero */
  lemma LinearZero(code: Code, j: nat, i: nat)
    requires Linear(code)
    ensures code(j, i, 0) == 0
  {
    assert code(j, i, 0 ^ 0) == code(j, i, 0) ^ code(j, i, 0);
    XorSelf(code(j, i, 0));
  }

  lemma XorSelf(x: bv8)
    ensures x ^ x == 0 && x ^ 0 == x && 0 ^ x == x
  {
  }

  /** Every column has its part in every parity: with the others zero the parity is the column's own
      coefficient map. */
  lemma {:induction false} EncodeOne(code: Code, j: nat, col: nat -> bv8, i: nat, k: nat)
    requires Linear(code) && forall c: nat :: c < k && c != i ==> col(c) == 0
    ensures Encode(code, j, col, k) == if i < k then code(j, i, col(i)) else 0
    decreases k
  {
    if k > 0 {
      EncodeOne(code, j, col, i, k - 1);
      LinearZero(code, j, k - 1);
      XorSelf(Encode(code, j, col, k - 1));
      XorSelf(code(j, k - 1, col(k - 1)));
    }
  }

  // ---- decoding an entry ----

  /** sectors: first of the entry, length of its strip, members read per block,
      end of the data, and the block size */
  datatype Decoded = Decoded(first: nat, strip: nat, disks: nat, last: int, unit: nat)

  function PerParity(g: Geom, e: Entry): nat
    requires 1 <= g.m
  {
    e.ppSize / g.m
  }

  /** unit0 is the log's block size in sectors */
  function Decode(g: Geom, unit0: nat, e: Entry): Decoded
    requires 1 <= g.m && 1 <= g.k
  {
    var first := e.dataSector * unit0;
    var per := PerParity(g, e);
    var small := per / 512 < g.chunk;
    var disks := if small && per > 0 then e.dataSize / per else g.k;
    var strip := if !small then g.chunk else if per > 0 then per / 512 else e.dataSize / 512 / g.k;
    var last := if small then first + (disks - 1) * g.chunk + strip else first + e.dataSize / 512;
    var unit := if unit0 == 1 && first % PAGE == 0 && last % PAGE == 0 then PAGE else unit0;
    Decoded(first, strip, disks, last, unit)
  }

  /** blocks read so far, by logical column, and whether to rebuild parity */
  datatype Gathered = Gathered(update: bool, pages: map<int, seq<bv8>>)

  function Gather(g: Geom, members: seq<Member>, c: Content, d: Decoded, pd: nat, i: nat, disk: nat,
          so: Gathered): Gathered
    requires 1 <= g.k && 1 <= g.m && 1 <= g.chunk && pd < g.N() && |members| == g.N()
    decreases d.disks - disk
  {
    if disk >= d.disks then so
    else
      var r := Ahead(g, d.first + i, disk);
      if r >= d.last then Gather(g, members, c, d, pd, i, disk + 1, so)
      else
        var p := Locate(g, r);
        if !Readable(members[p.slot], p.sector) then Gathered(false, so.pages)
        else
          var page := ReadBlock(c, p.slot, p.sector, d.unit);
          Gather(g, members, c, d, pd, i, disk + 1, Gathered(true, so.pages[DataIndex(g, pd, p.slot) := page]))
  }

  /** the two contents agree wherever a member may be read: it is there, and in sync or rebuilt past
      the sector */
  ghost predicate ReadAlike(members: seq<Member>, a: Content, b: Content) {
    forall slot: nat, sector: nat, t: nat ::
      slot < |members| && members[slot].Present? && (members[slot].inSync || sector < members[slot].recoveryOffset) ==>
        SameAt(a, b, slot, sector, t)
  }

  predicate SameAt(a: Content, b: Content, slot: nat, sector: nat, t: nat) {
    At(a, slot, sector + t) == At(b, slot, sector + t)
  }

  lemma SameBlock(members: seq<Member>, a: Content, b: Content, slot: nat, sector: nat, unit: nat)
    requires ReadAlike(members, a, b) && slot < |members| && members[slot].Present?
    requires members[slot].inSync || sector < members[slot].recoveryOffset
    ensures ReadBlock(a, slot, sector, unit) == ReadBlock(b, slot, sector, unit)
  {
    forall t: nat | t < unit ensures ReadBlock(a, slot, sector, unit)[t] == ReadBlock(b, slot, sector, unit)[t] {
      assert SameAt(a, b, slot, sector, t);
    }
  }

  /** What recovery gathers does not depend on any block of a member that is missing or not rebuilt
      that far. */
  lemma {:induction false} GatherReads(g: Geom, members: seq<Member>, a: Content, b: Content, d: Decoded, pd: nat,
          i: nat, disk: nat, so: Gathered)
    requires 1 <= g.k && 1 <= g.m && 1 <= g.chunk && pd < g.N() && |members| == g.N() && ReadAlike(members, a, b)
    ensures Gather(g, members, a, d, pd, i, disk, so) == Gather(g, members, b, d, pd, i, disk, so)
    decreases d.disks - disk
  {
    hide Locate, Ahead, DataIndex, At, ReadBlock, ReadAlike;
    if disk < d.disks {
      var r := Ahead(g, d.first + i, disk);
      if r >= d.last {
        GatherReads(g, members, a, b, d, pd, i, disk + 1, so);
      } else {
        var p := Locate(g, r);
        if Readable(members[p.slot], p.sector) {
          SameBlock(members, a, b, p.slot, p.sector, d.unit);
          var page := ReadBlock(a, p.slot, p.sector, d.unit);
          GatherReads(g, members, a, b, d, pd, i, disk + 1, Gathered(true, so.pages[DataIndex(g, pd, p.slot) := page]));
        }
      }
    }
  }

  function Lane(pages: map<int, seq<bv8>>, col: nat, t: nat): bv8 {
    if col in pages && t < |pages[col]| then pages[col][t] else 0
  }

  function LogAt(log: seq<bv8>, q: int): bv8 {
    if 0 <= q < |log| then log[q] else 0
  }

  /** parity j of one block row */
  function Rebuilt(g: Geom, code: Code, log: seq<bv8>, pos: nat, per: nat, unit: nat, b: nat,
                   pages: map<int, seq<bv8>>, j: nat): (p: seq<bv8>)
    ensures |p| == unit
  {
    seq(unit, t requires 0 <= t =>
      Encode(code, j, (c: nat) => Lane(pages, c, t), g.k)
      ^ (if per > 0 then LogAt(log, pos + (b * g.m + j) * unit + t) else 0))
  }

  /** the first j parities written to their slots */
  function Parities(g: Geom, members: seq<Member>, c: Content, pd: nat, sector: nat,
          par: nat -> seq<bv8>, j: nat): Content
    requires 1 <= g.N() && |members| == g.N()
  {
    if j == 0 then c
    else
      var before := Parities(g, members, c, pd, sector, par, j - 1);
      var slot := ParitySlot(g, pd, j - 1);
      if Writable(members[slot]) then WriteBlock(before, slot, sector, par(j - 1)) else before
  }

  function BlockIndex(i: nat, unit: nat): nat
    requires 1 <= unit
  {
    i / unit
  }

  /** sane is false when the logged parity member is not the row's */
  datatype Outcome = Outcome(content: Content, sane: bool)

  ghost predicate Ready(g: Geom, members: seq<Member>) {
    g.Valid() && |members| == g.N()
  }

  function RowDone(g: Geom, code: Code, members: seq<Member>, log: seq<bv8>, pos: nat, e: Entry, d: Decoded, i: nat,
          c: Content): Outcome
    requires Ready(g, members) && 1 <= d.unit
  {
    var place := Locate(g, d.first + i);
    if place.pd != e.parityDisk then Outcome(c, false)
    else
      var got := Gather(g, members, c, d, place.pd, i, 0, Gathered(false, map[]));
      if !got.update then Outcome(c, true)
      else
        var par := (j: nat) => Rebuilt(g, code, log, pos, PerParity(g, e), d.unit, BlockIndex(i, d.unit), got.pages, j);
        Outcome(Parities(g, members, c, place.pd, place.sector, par, g.m), true)
  }

  function RowsFrom(g: Geom, code: Code, members: seq<Member>, log: seq<bv8>, pos: nat, e: Entry, d: Decoded,
          i: nat, c: Content): Outcome
    requires Ready(g, members) && 1 <= d.unit
    decreases d.strip - i
  {
    if i >= d.strip then Outcome(c, true)
    else
      var row := RowDone(g, code, members, log, pos, e, d, i, c);
      if !row.sane then row else RowsFrom(g, code, members, log, pos, e, d, i + d.unit, row.content)
  }

  /** the log sectors an entry's checksum covers */
  function LogSlice(log: seq<bv8>, pos: nat, n: nat): (s: seq<bv8>)
    ensures |s| == n
  {
    seq(n, t requires 0 <= t => LogAt(log, pos + t))
  }

  function EntriesFrom(g: Geom, code: Code, members: seq<Member>, log: seq<bv8>, unit0: nat, entries: seq<Entry>,
          i: nat, pos: nat, c: Content): Outcome
    requires Ready(g, members) && 1 <= unit0
    decreases |entries| - i
  {
    if i >= |entries| then Outcome(c, true)
    else
      var e := entries[i];
      var out := if LogSlice(log, pos, e.ppSize / 512) != e.checked then Outcome(c, true)
                 else RowsFrom(g, code, members, log, pos, e, Decode(g, unit0, e), 0, c);
      if !out.sane then out
      else EntriesFrom(g, code, members, log, unit0, entries, i + 1, pos + e.ppSize / 512, out.content)
  }

  /** An entry that names another parity disk than its row's is not recovered, and the recovery
      ends there. */
  lemma WrongParityStops(g: Geom, code: Code, members: seq<Member>, log: seq<bv8>, unit0: nat, entries: seq<Entry>,
          i: nat, pos: nat, c: Content)
    requires Ready(g, members) && 1 <= unit0 && i < |entries|
    requires LogSlice(log, pos, entries[i].ppSize / 512) == entries[i].checked
    requires var d := Decode(g, unit0, entries[i]);
      1 <= d.unit && d.strip > 0 && Locate(g, d.first).pd != entries[i].parityDisk
    ensures EntriesFrom(g, code, members, log, unit0, entries, i, pos, c) == Outcome(c, false)
  {
    hide Gather, Parities, Rebuilt, LogSlice, Decode, Locate;
  }

  /** The members at assembly. */
  class Members {
    const g: Geom
    const code: Code
    const members: seq<Member>
    var content: Content

    ghost predicate Valid() {
      Ready(g, members)
    }

    constructor (g: Geom, code: Code, members: seq<Member>, content: Content)
      requires Ready(g, members)
      ensures Valid() && this.g == g && this.code == code && this.members == members && this.content == content
    {
      this.g, this.code, this.members, this.content := g, code, members, content;
    }

    /** the data of one block row, into pages by logical column */
    method ReadRow(d: Decoded, pd: nat, i: nat) returns (got: Gathered)
      requires Valid() && pd < g.N()
      ensures got == Gather(g, members, content, d, pd, i, 0, Gathered(false, map[]))
    {
      var update, pages := false, map[];
      var disk := 0;
      while disk < d.disks
        invariant Gather(g, members, content, d, pd, i, disk, Gathered(update, pages))
               == Gather(g, members, content, d, pd, i, 0, Gathered(false, map[]))
      {
        var r := Ahead(g, d.first + i, disk);
        if r < d.last {
          update := true;
          var p := Locate(g, r);
          if !Readable(members[p.slot], p.sector) {
            update := false;
            break;
          }
          pages := pages[DataIndex(g, pd, p.slot) := ReadBlock(content, p.slot, p.sector, d.unit)];
        }
        disk := disk + 1;
      }
      got := Gathered(update, pages);
    }

    /** ppl_recover_entry_km: every block row of the entry's strip */
    method RecoverEntry(unit0: nat, e: Entry, log: seq<bv8>, pos: nat) returns (sane: bool)
      requires Valid() && 1 <= unit0
      modifies this
      ensures Outcome(content, sane)
           == RowsFrom(g, code, members, log, pos, e, Decode(g, unit0, e), 0, old(content))
    {
      var d := Decode(g, unit0, e);
      var per := PerParity(g, e);
      assert 1 <= d.unit;
      hide Decode, PerParity, Gather, Locate, Parities, Rebuilt, BlockIndex, PowerOfTwo;
      var i: nat := 0;
      while i < d.strip
        invariant RowsFrom(g, code, members, log, pos, e, d, i, content)
               == RowsFrom(g, code, members, log, pos, e, d, 0, old(content))
        decreases d.strip - i
      {
        var b := BlockIndex(i, d.unit);
        var place := Locate(g, d.first + i);
        if place.pd != e.parityDisk {
          return false;
        }
        var got := ReadRow(d, place.pd, i);
        if got.update {
          WriteRow(log, pos, per, d.unit, b, place.pd, place.sector, got.pages);
        }
        i := i + d.unit;
      }
      sane := true;
    }

    /** all m parities of one block row, each to its slot */
    method WriteRow(log: seq<bv8>, pos: nat, per: nat, unit: nat, b: nat, pd: nat, sector: nat,
            pages: map<int, seq<bv8>>)
      requires Valid()
      modifies this
      ensures content == Parities(g, members, old(content), pd, sector,
                                  (j: nat) => Rebuilt(g, code, log, pos, per, unit, b, pages, j), g.m)
    {
      var par := (j: nat) => Rebuilt(g, code, log, pos, per, unit, b, pages, j);
      for j := 0 to g.m
        invariant content == Parities(g, members, old(content), pd, sector, par, j)
      {
        var slot := ParitySlot(g, pd, j);
        if Writable(members[slot]) {
          content := WriteBlock(content, slot, sector, par(j));
        }
      }
    }

    /** ppl_recover: the entries of one header, one after the other */
    method Recover(unit0: nat, entries: seq<Entry>, log: seq<bv8>) returns (sane: bool)
      requires Valid() && 1 <= unit0
      modifies this
      ensures Outcome(content, sane)
           == EntriesFrom(g, code, members, log, unit0, entries, 0, 0, old(content))
    {
      var pos: nat, i: nat := 0, 0;
      while i < |entries|
        invariant 0 <= i <= |entries|
        invariant EntriesFrom(g, code, members, log, unit0, entries, i, pos, content)
               == EntriesFrom(g, code, members, log, unit0, entries, 0, 0, old(content))
      {
        var e := entries[i];
        if LogSlice(log, pos, e.ppSize / 512) == e.checked {
          sane := RecoverEntry(unit0, e, log, pos);
          if !sane {
            return;
          }
        }
        pos := pos + e.ppSize / 512;
        i := i + 1;
      }
      sane := true;
    }
  }
}
