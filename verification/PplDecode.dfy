/** What recovery reads back from an entry: the matrix that was logged, exactly
    when the entry's rows are all full-stripe writes or none is. */
module PplDecode {
  import opened Arith
  import opened PplGeometry
  import opened PplLog
  import opened PplRecover

  ghost predicate Uniform(rows: seq<Stripe>) {
    Partials(rows) == 0 || Partials(rows) == |rows|
  }

  /** the entry as the header stores it: the place in log blocks */
  function Stored(unit0: nat, e: Entry): Entry
    requires 1 <= unit0
  {
    e.(dataSector := Shr(e.dataSector, Ilog2(unit0)))
  }

  /** log blocks of 512 bytes, or of a page */
  predicate BlockOk(unit0: nat) {
    unit0 == 1 || unit0 == PAGE
  }

  lemma {:induction false} PartialsBound(rows: seq<Stripe>)
    ensures Partials(rows) <= |rows|
    ensures |rows| > 0 && Partials(rows) < |rows| ==> exists b: nat :: b < |rows| && rows[b].full
    ensures Partials(rows) > 0 ==> exists b: nat :: b < |rows| && !rows[b].full
  {
    if rows != [] {
      var init := rows[..|rows| - 1];
      PartialsBound(init);
      if b: nat :| b < |init| && init[b].full {
        assert rows[b].full;
      }
      if b: nat :| b < |init| && !init[b].full {
        assert !rows[b].full;
      }
      assert rows[|rows| - 1].full || !rows[|rows| - 1].full;
    }
  }

  /** in a uniform entry every row is of the same kind */
  lemma {:induction false} UniformRow(rows: seq<Stripe>, b: nat)
    requires b < |rows|
    ensures Partials(rows) == 0 ==> rows[b].full
    ensures Partials(rows) == |rows| ==> !rows[b].full
  {
    var init := rows[..|rows| - 1];
    PartialsBound(init);
    if b < |rows| - 1 {
      UniformRow(init, b);
    }
  }

  /** a mixed entry writes every column */
  lemma MixedIsWhole(g: Geom, e: Entry, rows: seq<Stripe>)
    requires Describes(g, e, rows) && Partials(rows) < |rows|
    ensures rows[0].count == g.k && rows[0].first == 0
  {
    PartialsBound(rows);
    var b: nat :| b < |rows| && rows[b].full;
    assert StripeOk(g, rows[b]) && InMatrix(rows[0], rows[b], b);
  }

  /** the rows stay inside one chunk */
  lemma RowsFit(g: Geom, e: Entry, rows: seq<Stripe>)
    requires Describes(g, e, rows)
    ensures rows[0].off + |rows| * PAGE <= g.chunk
    ensures rows[0].off % PAGE == 0
    ensures |rows| * PAGE == g.chunk ==> rows[0].off == 0
  {
    var n := |rows|;
    assert StripeOk(g, rows[n - 1]) && InMatrix(rows[0], rows[n - 1], n - 1);
    assert StripeOk(g, rows[0]);
  }

  /** data sectors are whole pages, so storing them in log blocks loses nothing */
  lemma PlaceSurvives(g: Geom, unit0: nat, e: Entry, rows: seq<Stripe>)
    requires Describes(g, e, rows) && BlockOk(unit0)
    ensures Stored(unit0, e).dataSector * unit0 == DataSector(g, rows[0])
    ensures DataSector(g, rows[0]) % PAGE == 0
  {
    var sh := rows[0];
    assert StripeOk(g, sh);
    WholePages(g.chunk, sh.row * g.k + sh.first, sh.off);
    if unit0 == 1 {
      assert Ilog2(1) == 0;
    } else {
      assert PowerOfTwo(1) && PowerOfTwo(2) && PowerOfTwo(4) && PowerOfTwo(PAGE);
      ShiftDivides(e.dataSector, PAGE);
    }
  }

  lemma WholePages(chunk: nat, number: nat, off: nat)
    requires chunk % PAGE == 0 && off % PAGE == 0
    ensures (number * chunk + off) % PAGE == 0
  {
    var c := chunk / PAGE;
    assert chunk == PAGE * c;
    assert number * chunk == PAGE * (number * c);
    assert number * chunk + off == (number * c + off / PAGE) * PAGE;
    DivModUnique(number * c + off / PAGE, 0, PAGE);
  }

  /** exact quotients of the size fields */
  lemma Quotients(q: nat, m: nat, n: nat, count: nat)
    requires 1 <= m
    ensures (q * m * PAGE_SIZE) / m == q * PAGE_SIZE
    ensures q * PAGE_SIZE / 512 == q * PAGE
    ensures (n * count * PAGE_SIZE) / 512 == n * count * PAGE
    ensures 1 <= n ==> (n * count * PAGE_SIZE) / (n * PAGE_SIZE) == count
    ensures 1 <= count ==> (n * count * PAGE_SIZE) / 512 / count == n * PAGE
  {
    assert q * m * PAGE_SIZE == (q * PAGE_SIZE) * m;
    DivModUnique(q * PAGE_SIZE, 0, m);
    DivModUnique(q * PAGE, 0, 512);
    assert n * count * PAGE_SIZE == (n * count * PAGE) * 512;
    DivModUnique(n * count * PAGE, 0, 512);
    if 1 <= n {
      assert n * count * PAGE_SIZE == count * (n * PAGE_SIZE);
      DivModUnique(count, 0, n * PAGE_SIZE);
    }
    if 1 <= count {
      assert n * count * PAGE == (n * PAGE) * count;
      DivModUnique(n * PAGE, 0, count);
    }
  }

  /** what recovery takes from the sizes of an entry with q partial rows of n */
  lemma SizesDecode(g: Geom, e: Entry, rows: seq<Stripe>)
    requires Describes(g, e, rows)
    ensures PerParity(g, e) == Partials(rows) * PAGE_SIZE
    ensures PerParity(g, e) / 512 == Partials(rows) * PAGE
    ensures e.dataSize / 512 == |rows| * rows[0].count * PAGE
    ensures Partials(rows) == |rows| ==> e.dataSize / PerParity(g, e) == rows[0].count
    ensures Partials(rows) == 0 ==> e.dataSize / 512 / g.k == |rows| * PAGE
  {
    Quotients(Partials(rows), g.m, |rows|, rows[0].count);
    if Partials(rows) == 0 {
      MixedIsWhole(g, e, rows);
    }
  }

  /** Every column of the logged range is read for every block row, and nothing
      past it. */
  ghost predicate ReadsMatrix(g: Geom, d: Decoded, count: nat, n: nat) {
    && count <= d.disks
    && (forall b: nat, disk: nat :: b < n && disk < d.disks ==> (Within(g, d, b, disk) <==> disk < count))
  }

  /** block row b has data on the entry's disk-th member */
  predicate Within(g: Geom, d: Decoded, b: nat, disk: nat) {
    Ahead(g, d.first + b * PAGE, disk) < d.last
  }

  lemma ReadsByStrip(g: Geom, d: Decoded, count: nat, n: nat)
    requires g.Valid()
    requires 1 <= n && 1 <= count && n * PAGE <= g.chunk
    requires d.disks == count && d.last == d.first + (count - 1) * g.chunk + n * PAGE
    ensures ReadsMatrix(g, d, count, n)
  {
    forall b: nat, disk: nat | b < n && disk < count
      ensures Within(g, d, b, disk)
    {
      MulMono(disk, count - 1, g.chunk);
    }
  }

  lemma ReadsByChunk(g: Geom, d: Decoded, count: nat, n: nat)
    requires g.Valid()
    requires n * PAGE == g.chunk && count <= g.k
    requires d.disks == g.k && d.last == d.first + n * count * PAGE
    ensures ReadsMatrix(g, d, count, n)
  {
    assert n * count * PAGE == count * g.chunk;
    forall b: nat, disk: nat | b < n && disk < d.disks
      ensures Within(g, d, b, disk) <==> disk < count
    {
      if disk < count {
        MulMono(disk + 1, count, g.chunk);
        MulSucc(disk, g.chunk);
      } else {
        MulMono(count, disk, g.chunk);
      }
    }
  }

  ghost predicate DecodedRight(g: Geom, rows: seq<Stripe>, d: Decoded)
    requires rows != []
  {
    && d.first == DataSector(g, rows[0])
    && d.unit == PAGE
    && d.strip == |rows| * PAGE
    && ReadsMatrix(g, d, rows[0].count, |rows|)
  }

  lemma PagesAdd(a: nat, b: nat, chunk: nat, n: nat, count: nat)
    requires a % PAGE == 0 && chunk % PAGE == 0
    ensures (a + n * chunk + b * PAGE) % PAGE == 0
    ensures (a + n * count * PAGE) % PAGE == 0
  {
    var c := chunk / PAGE;
    assert n * chunk == (n * c) * PAGE;
    DivModUnique(a / PAGE + n * c + b, 0, PAGE);
    DivModUnique(a / PAGE + n * count, 0, PAGE);
  }

  /** A uniform entry decodes to the matrix that was logged. */
  lemma UniformDecodes(g: Geom, unit0: nat, e: Entry, rows: seq<Stripe>)
    requires Describes(g, e, rows) && BlockOk(unit0) && Uniform(rows)
    ensures DecodedRight(g, rows, Decode(g, unit0, Stored(unit0, e)))
  {
    var d := Decode(g, unit0, Stored(unit0, e));
    var n, count := |rows|, rows[0].count;
    PlaceSurvives(g, unit0, e, rows);
    RowsFit(g, e, rows);
    SizesDecode(g, e, rows);
    assert StripeOk(g, rows[0]);
    PagesAdd(d.first, n, g.chunk, count - 1, count);
    PagesAdd(d.first, n, g.chunk, n, count);
    if Partials(rows) == 0 {
      MixedIsWhole(g, e, rows);
      ReadsByStrip(g, d, count, n);
    } else if n * PAGE < g.chunk {
      ReadsByStrip(g, d, count, n);
    } else {
      ReadsByChunk(g, d, count, n);
    }
  }

  /** A mixed entry decodes to a strip that stops short of its last rows. */
  lemma MixedFallsShort(g: Geom, unit0: nat, e: Entry, rows: seq<Stripe>)
    requires Describes(g, e, rows) && BlockOk(unit0) && !Uniform(rows)
    ensures Decode(g, unit0, Stored(unit0, e)).strip == Partials(rows) * PAGE < |rows| * PAGE
  {
    PartialsBound(rows);
    RowsFit(g, e, rows);
    SizesDecode(g, e, rows);
  }

  /** Recovery sees the logged matrix exactly when the entry is uniform. */
  lemma DecodesExactly(g: Geom, unit0: nat, e: Entry, rows: seq<Stripe>)
    requires Describes(g, e, rows) && BlockOk(unit0)
    ensures DecodedRight(g, rows, Decode(g, unit0, Stored(unit0, e))) <==> Uniform(rows)
  {
    if Uniform(rows) {
      UniformDecodes(g, unit0, e, rows);
    } else {
      MixedFallsShort(g, unit0, e, rows);
    }
  }
}
