/** The declustered map (km/raid_km_dcl.h): seeded base shuffles, each expanded by
    all N rotations, give every row a bijection between logical columns and pool
    disks.  The generator is not modelled: `draw(b, i)` is whatever it returned for
    base shuffle b at loop index i, so every result holds for every seed. */
module DclGeometry {

  import opened Arith

  // ---- the shuffle ----------------------------------------------------------------

  /** q is the inverse of p, both over [0, |p|). */
  ghost predicate Inverse(p: seq<nat>, q: seq<nat>) {
    && |p| == |q|
    && (forall i :: 0 <= i < |p| ==> p[i] < |p| && q[p[i]] == i)
    && (forall v :: 0 <= v < |q| ==> q[v] < |p| && p[q[v]] == v)
  }

  function Identity(n: nat): (s: seq<nat>)
    ensures |s| == n && forall i :: 0 <= i < n ==> s[i] == i
  {
    seq(n, i => i)
  }

  function Swap(s: seq<nat>, i: nat, j: nat): seq<nat>
    requires i < |s| && j < |s|
  {
    s[i := s[j]][j := s[i]]
  }

  function Pick(draw: nat -> nat, i: nat): (j: nat)
    ensures j <= i
  {
    draw(i) % (i + 1)
  }

  /** The swaps of loop indices i, i - 1, ..., 1 applied to s. */
  function ShuffleFrom(s: seq<nat>, i: nat, draw: nat -> nat): (r: seq<nat>)
    requires s == [] || i < |s|
    ensures |r| == |s|
    decreases i
  {
    if i == 0 || s == [] then s else ShuffleFrom(Swap(s, i, Pick(draw, i)), i - 1, draw)
  }

  function Shuffle(n: nat, draw: nat -> nat): seq<nat> {
    if n == 0 then [] else ShuffleFrom(Identity(n), n - 1, draw)
  }

  lemma SwapInverse(s: seq<nat>, q: seq<nat>, i: nat, j: nat)
    requires Inverse(s, q) && i < |s| && j < |s|
    ensures Inverse(Swap(s, i, j), q[s[i] := j][s[j] := i])
  {
  }

  /** Whatever the generator returns, a shuffled inverse pair stays one. */
  lemma {:induction false} ShuffleFromInvertible(s: seq<nat>, q: seq<nat>, i: nat, draw: nat -> nat)
    returns (q': seq<nat>)
    requires s == [] || i < |s|
    requires Inverse(s, q)
    ensures Inverse(ShuffleFrom(s, i, draw), q')
    decreases i
  {
    if i == 0 || s == [] {
      q' := q;
    } else {
      var j := Pick(draw, i);
      SwapInverse(s, q, i, j);
      q' := ShuffleFromInvertible(Swap(s, i, j), q[s[i] := j][s[j] := i], i - 1, draw);
    }
  }

  /** Any generator output gives a permutation of [0, n). */
  lemma ShuffleInvertible(n: nat, draw: nat -> nat) returns (q: seq<nat>)
    ensures |Shuffle(n, draw)| == n && Inverse(Shuffle(n, draw), q)
  {
    if n == 0 {
      q := [];
    } else {
      assert Inverse(Identity(n), Identity(n));
      q := ShuffleFromInvertible(Identity(n), Identity(n), n - 1, draw);
    }
  }

  /** Row b of a table. */
  /** the draws from index i down decide the shuffle from there */
  lemma {:induction false} DrawsDecide(s: seq<nat>, i: nat, a: nat -> nat, b: nat -> nat)
    requires s == [] || i < |s|
    requires forall k: nat :: k <= i ==> a(k) == b(k)
    ensures ShuffleFrom(s, i, a) == ShuffleFrom(s, i, b)
    decreases i
  {
    if i > 0 && s != [] {
      DrawsDecide(Swap(s, i, Pick(a, i)), i - 1, a, b);
    }
  }

  /** s and p hold the same numbers, each once, and agree above i */
  ghost predicate Rearranged(s: seq<nat>, p: seq<nat>, i: nat) {
    && |s| == |p|
    && (forall x: nat :: x in s <==> x in p)
    && (forall a, b :: 0 <= a < b < |s| ==> s[a] != s[b])
    && (forall a, b :: 0 <= a < b < |p| ==> p[a] != p[b])
    && (forall k :: i < k < |s| ==> s[k] == p[k])
  }

  lemma PlaceOne(s: seq<nat>, p: seq<nat>, i: nat) returns (j: nat)
    requires i < |s| && Rearranged(s, p, i) && 0 < i
    ensures j <= i && |Swap(s, i, j)| == |s| && Rearranged(Swap(s, i, j), p, i - 1)
  {
    assert p[i] in p;
    j :| j < |s| && s[j] == p[i];
    assert forall k :: i < k < |s| ==> s[k] == p[k] && p[k] != p[i];
    var t := Swap(s, i, j);
    assert t[i] == p[i];
    forall x: nat ensures x in t <==> x in p {
      if x in s {
        var k :| 0 <= k < |s| && s[k] == x;
        assert t[if k == i then j else if k == j then i else k] == x;
      }
      if x in t {
        var k :| 0 <= k < |t| && t[k] == x;
        assert s[if k == i then j else if k == j then i else k] == x;
      }
    }
  }

  lemma {:induction false} ShuffleTo(s: seq<nat>, p: seq<nat>, i: nat) returns (draw: nat -> nat)
    requires i < |s| && Rearranged(s, p, i)
    ensures ShuffleFrom(s, i, draw) == p
    decreases i
  {
    hide *;
    if i == 0 {
      draw := k => 0;
      LastInPlace(s, p);
      ShuffleStep(s, 0, draw);
    } else {
      var j := PlaceOne(s, p, i);
      var rest := ShuffleTo(Swap(s, i, j), p, i - 1);
      draw := (k: nat) => if k == i then j else rest(k);
      PickIs(draw, i, j);
      ShuffleStep(s, i, draw);
      DrawsDecide(Swap(s, i, j), i - 1, draw, rest);
    }
  }

  lemma ShuffleStep(s: seq<nat>, i: nat, draw: nat -> nat)
    requires i < |s|
    ensures Pick(draw, i) <= i
    ensures ShuffleFrom(s, i, draw) == if i == 0 then s else ShuffleFrom(Swap(s, i, Pick(draw, i)), i - 1, draw)
  {
  }

  lemma PickIs(draw: nat -> nat, i: nat, j: nat)
    requires j <= i && draw(i) == j
    ensures Pick(draw, i) == j
  {
    DivModUnique(0, j, i + 1);
  }

  lemma LastInPlace(s: seq<nat>, p: seq<nat>)
    requires s != [] && Rearranged(s, p, 0)
    ensures s == p
  {
    assert p[0] in s;
    var k :| 0 <= k < |s| && s[k] == p[0];
  }

  /** Every permutation is the shuffle of some draws: none is ruled out. */
  lemma ShuffleReaches(p: seq<nat>, q: seq<nat>) returns (draw: nat -> nat)
    requires Inverse(p, q)
    ensures Shuffle(|p|, draw) == p
  {
    if p == [] {
      draw := k => 0;
    } else {
      forall x: nat ensures x in Identity(|p|) <==> x in p {
        if x in Identity(|p|) {
          assert Identity(|p|)[x] == x && p[q[x]] == x;
        }
        if x in p {
          assert Identity(|p|)[x] == x;
        }
      }
      assert forall a, b :: 0 <= a < b < |p| ==> p[a] != p[b] by {
        forall a, b | 0 <= a < b < |p| ensures p[a] != p[b] {
          assert q[p[a]] == a && q[p[b]] == b;
        }
      }
      draw := ShuffleTo(Identity(|p|), p, |p| - 1);
    }
  }

  ghost function Row(a: array2<nat>, b: nat): (r: seq<nat>)
    requires b < a.Length0
    reads a
    ensures |r| == a.Length1
  {
    seq(a.Length1, c requires 0 <= c < a.Length1 reads a => a[b, c])
  }

  /** Every other row of the table is as it was. */
  twostate predicate OnlyRow(a: array2<nat>, b: nat)
    reads a
  {
    forall x, c :: 0 <= x < a.Length0 && x != b && 0 <= c < a.Length1 ==> a[x, c] == old(a[x, c])
  }

  method SwapInRow(perm: array2<nat>, b: nat, i: nat, j: nat)
    requires b < perm.Length0 && i < perm.Length1 && j < perm.Length1
    modifies perm
    ensures Row(perm, b) == Swap(old(Row(perm, b)), i, j)
    ensures OnlyRow(perm, b)
  {
    perm[b, i], perm[b, j] := perm[b, j], perm[b, i];
  }

  method FillIdentity(perm: array2<nat>, b: nat)
    requires b < perm.Length0
    modifies perm
    ensures Row(perm, b) == Identity(perm.Length1)
    ensures OnlyRow(perm, b)
  {
    for i := 0 to perm.Length1
      invariant forall k :: 0 <= k < i ==> perm[b, k] == k
      invariant OnlyRow(perm, b)
    {
      perm[b, i] := i;
    }
  }

  /** dcl_gen_base_perm: the Fisher-Yates shuffle of one table row in place. */
  method GenBasePerm(perm: array2<nat>, b: nat, draw: nat -> nat)
    requires b < perm.Length0
    modifies perm
    ensures Row(perm, b) == Shuffle(perm.Length1, draw)
    ensures OnlyRow(perm, b)
  {
    FillIdentity(perm, b);
    if perm.Length1 == 0 {
      return;
    }
    var i := perm.Length1 - 1;
    while i > 0
      invariant 0 <= i < perm.Length1
      invariant ShuffleFrom(Row(perm, b), i, draw) == Shuffle(perm.Length1, draw)
      invariant OnlyRow(perm, b)
    {
      SwapInRow(perm, b, i, Pick(draw, i));
      i := i - 1;
    }
  }

  // ---- geometry and tables ---------------------------------------------------------

  /** struct dcl_geom with its tables, one row per base shuffle:
      base[b][lcol] = disk, ibase[b][disk] = lcol. */
  datatype Geom = Geom(N: nat, g: nat, m: nat, s: nat, ngroups: nat, nbase: nat,
                       base: seq<seq<nat>>, ibase: seq<seq<nat>>)
  {
    /** group width is k data + m parity; C1: the groups and the spares fill the row */
    predicate Sized() {
      && 0 < m < g && 0 < ngroups && 0 < nbase
      && N == ngroups * g + s
      && |base| == nbase && |ibase| == nbase
      && (forall b :: 0 <= b < nbase ==> |base[b]| == N && |ibase[b]| == N)
    }

    function K(): nat requires m <= g { g - m }

    /** the group columns are [0, GCols) */
    function GCols(): nat { ngroups * g }

    function Period(): nat { nbase * N }

    /** the tables are inverse to each other, base shuffle by base shuffle */
    ghost predicate Valid() {
      Sized() && forall b :: 0 <= b < nbase ==> Inverse(base[b], ibase[b])
    }
  }

  ghost function Rows(a: array2<nat>): (r: seq<seq<nat>>)
    reads a
    ensures |r| == a.Length0 && forall b :: 0 <= b < |r| ==> r[b] == Row(a, b)
  {
    seq(a.Length0, b requires 0 <= b < a.Length0 reads a => Row(a, b))
  }

  /** The tables built this way make a valid geometry. */
  lemma TablesValid(ge: Geom, draw: nat -> (nat -> nat))
    requires ge.Sized()
    requires forall b :: 0 <= b < ge.nbase ==>
      ge.base[b] == Shuffle(ge.N, draw(b)) && Inverse(ge.base[b], ge.ibase[b])
    ensures ge.Valid()
  {
  }

  lemma BuiltValid(base: array2<nat>, ibase: array2<nat>, nbase: nat, N: nat, draw: nat -> (nat -> nat))
    requires base.Length0 == ibase.Length0 == nbase && base.Length1 == ibase.Length1 == N
    requires forall b :: 0 <= b < nbase ==>
      Row(base, b) == Shuffle(N, draw(b)) && Inverse(Row(base, b), Row(ibase, b))
    ensures forall ge: Geom ::
      ge.Sized() && ge.nbase == nbase && ge.N == N && ge.base == Rows(base) && ge.ibase == Rows(ibase) ==> ge.Valid()
  {
    hide Shuffle, Inverse;
    forall ge: Geom
      | ge.Sized() && ge.nbase == nbase && ge.N == N && ge.base == Rows(base) && ge.ibase == Rows(ibase)
      ensures ge.Valid()
    {
      TablesValid(ge, draw);
    }
  }

  /** the inverse of one base shuffle, entry by entry */
  method InvertRow(base: array2<nat>, ibase: array2<nat>, b: nat, ghost q: seq<nat>)
    requires base != ibase && b < base.Length0 == ibase.Length0 && base.Length1 == ibase.Length1
    requires Inverse(Row(base, b), q) && |q| == base.Length1
    modifies ibase
    ensures Row(ibase, b) == q
    ensures forall x :: 0 <= x < ibase.Length0 && x != b ==> Row(ibase, x) == old(Row(ibase, x))
  {
    ghost var shuffled, ibase0 := Row(base, b), Rows(ibase);
    for c := 0 to base.Length1
      invariant forall x :: 0 <= x < ibase.Length0 && x != b ==> Row(ibase, x) == ibase0[x]
      invariant forall k :: 0 <= k < c ==> ibase[b, shuffled[k]] == k
    {
      assert base[b, c] == shuffled[c];
      ibase[b, base[b, c]] := c;
    }
    forall d | 0 <= d < base.Length1 ensures ibase[b, d] == q[d] {
      assert shuffled[q[d]] == d;
    }
  }

  /** dcl_geom_tables: fill base and ibase for every base shuffle. */
  method GeomTables(nbase: nat, N: nat, draw: nat -> (nat -> nat), base: array2<nat>, ibase: array2<nat>)
    requires base != ibase
    requires base.Length0 == ibase.Length0 == nbase && base.Length1 == ibase.Length1 == N
    modifies base, ibase
    ensures forall b :: 0 <= b < nbase ==>
      Row(base, b) == Shuffle(N, draw(b)) && Inverse(Row(base, b), Row(ibase, b))
    ensures forall ge: Geom ::
      ge.Sized() && ge.nbase == nbase && ge.N == N && ge.base == Rows(base) && ge.ibase == Rows(ibase) ==> ge.Valid()
  {
    hide Inverse, Shuffle;
    for b := 0 to nbase
      invariant forall x :: 0 <= x < b ==>
        Row(base, x) == Shuffle(N, draw(x)) && Inverse(Row(base, x), Row(ibase, x))
    {
      ghost var base0, ibase0 := Rows(base), Rows(ibase);
      GenBasePerm(base, b, draw(b));
      ghost var q := ShuffleInvertible(N, draw(b));
      InvertRow(base, ibase, b, q);
    }
    BuiltValid(base, ibase, nbase, N, draw);
  }

  // ---- the row map -----------------------------------------------------------------

  /** Which base shuffle a row uses, and by how much it is rotated. */
  function RowPerm(ge: Geom, row: nat): (p: (nat, nat))
    requires ge.Sized()
    ensures p.0 < ge.nbase && p.1 < ge.N
  {
    MulMono(1, ge.ngroups, ge.g);
    MulMono(1, ge.nbase, ge.N);
    var pidx := row % ge.Period();
    QuotientBound(pidx, ge.nbase, ge.N);
    (pidx / ge.N, pidx % ge.N)
  }

  /** dcl_disk: logical column -> pool disk. */
  function Disk(ge: Geom, row: nat, lcol: nat): (d: nat)
    requires ge.Sized() && lcol < ge.N
    ensures d < ge.N
  {
    var (b, t) := RowPerm(ge, row);
    (ge.base[b][lcol] + t) % ge.N
  }

  /** dcl_lcol: pool disk -> logical column. */
  function Lcol(ge: Geom, row: nat, disk: nat): nat
    requires ge.Sized() && disk < ge.N
  {
    var (b, t) := RowPerm(ge, row);
    ge.ibase[b][(disk + ge.N - t) % ge.N]
  }

  /** Every row is a bijection, and dcl_lcol is its inverse. */
  lemma RowBijection(ge: Geom, row: nat, x: nat)
    requires ge.Valid() && x < ge.N
    ensures Lcol(ge, row, Disk(ge, row, x)) == x
    ensures Lcol(ge, row, x) < ge.N && Disk(ge, row, Lcol(ge, row, x)) == x
  {
    var (b, t) := RowPerm(ge, row);
    assert Inverse(ge.base[b], ge.ibase[b]);
    RotateBack(ge.base[b][x], t, ge.N);
    RotateBack(x, t, ge.N);
    assert ge.ibase[b][(x + ge.N - t) % ge.N] < ge.N;
  }

  datatype Role = Data(group: nat, slot: nat) | Parity(group: nat, slot: nat) | Spare(index: nat)

  /** dcl_role */
  function RoleOf(ge: Geom, lcol: nat): Role
    requires ge.Sized()
  {
    if lcol < ge.GCols() then
      var slot := lcol % ge.g;
      if slot < ge.K() then Data(lcol / ge.g, slot) else Parity(lcol / ge.g, slot)
    else Spare(lcol - ge.GCols())
  }

  datatype Addr = Addr(row: nat, group: nat, slot: nat, lcol: nat, disk: nat)

  /** dcl_role of a group column. */
  lemma RoleOfGroupColumn(ge: Geom, group: nat, slot: nat)
    requires ge.Sized() && group < ge.ngroups && slot < ge.g
    ensures group * ge.g + slot < ge.GCols()
    ensures RoleOf(ge, group * ge.g + slot) ==
      if slot < ge.K() then Data(group, slot) else Parity(group, slot)
  {
    IndexInBounds(group, slot, ge.ngroups, ge.g);
    DivModUnique(group, slot, ge.g);
  }

  lemma DataColumn(ge: Geom, dcol: nat)
    requires ge.Sized() && dcol < ge.ngroups * ge.K()
    ensures dcol / ge.K() < ge.ngroups
    ensures dcol / ge.K() * ge.g + dcol % ge.K() < ge.GCols()
  {
    QuotientBound(dcol, ge.ngroups, ge.K());
    RoleOfGroupColumn(ge, dcol / ge.K(), dcol % ge.K());
  }

  /** data columns per row */
  function DataCols(ge: Geom): (n: nat)
    requires ge.Sized()
    ensures 0 < n
  {
    MulMono(1, ge.ngroups, ge.K());
    ge.ngroups * ge.K()
  }

  /** the data column of a logical chunk is one of some group's */
  lemma ForwardColumn(ge: Geom, chunk: nat)
    requires ge.Sized()
    ensures 0 < ge.K() <= ge.g && 0 < DataCols(ge)
    ensures chunk % DataCols(ge) / ge.K() < ge.ngroups && chunk % DataCols(ge) % ge.K() < ge.g
  {
    DataColumn(ge, chunk % DataCols(ge));
  }

  /** dcl_forward: logical data chunk -> place. */
  function Forward(ge: Geom, chunk: nat): Addr
    requires ge.Sized()
  {
    ForwardColumn(ge, chunk);
    var dcol := chunk % DataCols(ge);
    AddrOf(ge, chunk / DataCols(ge), dcol / ge.K(), dcol % ge.K())
  }

  /** The place of a row's data column. */
  function AddrOf(ge: Geom, row: nat, group: nat, slot: nat): Addr
    requires ge.Sized() && group < ge.ngroups && slot < ge.g
  {
    RoleOfGroupColumn(ge, group, slot);
    var lcol := group * ge.g + slot;
    Addr(row, group, slot, lcol, Disk(ge, row, lcol))
  }

  /** The logical chunk of a row's data column. */
  function ChunkOf(ge: Geom, row: nat, group: nat, slot: nat): nat
    requires ge.Sized()
  {
    row * DataCols(ge) + group * ge.K() + slot
  }

  /** (row, group, slot) and the logical chunk are a mixed-radix numbering of each other. */
  lemma ChunkDigits(ge: Geom, chunk: nat, row: nat, group: nat, slot: nat)
    requires ge.Sized() && group < ge.ngroups && slot < ge.K()
    ensures chunk == ChunkOf(ge, row, group, slot) <==>
      row == chunk / DataCols(ge)
      && group == chunk % DataCols(ge) / ge.K()
      && slot == chunk % DataCols(ge) % ge.K()
  {
    IndexInBounds(group, slot, ge.ngroups, ge.K());
    DivModUnique(group, slot, ge.K());
    DivModUnique(row, group * ge.K() + slot, DataCols(ge));
  }

  /** dcl_inverse: (disk, physical chunk) -> role, and the logical chunk of a data column. */
  function Inv(ge: Geom, disk: nat, row: nat): (Role, nat)
    requires ge.Sized() && disk < ge.N
  {
    var role := RoleOf(ge, Lcol(ge, row, disk));
    (role, if role.Data? then ChunkOf(ge, row, role.group, role.slot) else 0)
  }

  /** dcl_inverse takes back what dcl_forward placed, and no two data chunks meet. */
  lemma ForwardInverse(ge: Geom, chunk: nat)
    requires ge.Valid()
    ensures var a := Forward(ge, chunk);
      a.disk < ge.N && Inv(ge, a.disk, a.row) == (Data(a.group, a.slot), chunk)
  {
    DataColumn(ge, chunk % DataCols(ge));
    var a := Forward(ge, chunk);
    RowBijection(ge, a.row, a.lcol);
    RoleOfGroupColumn(ge, a.group, a.slot);
    ChunkDigits(ge, chunk, a.row, a.group, a.slot);
  }

  /** ... and every data column on disk is the place of exactly the chunk dcl_inverse names. */
  lemma InverseForward(ge: Geom, disk: nat, row: nat)
    requires ge.Valid() && disk < ge.N
    requires Inv(ge, disk, row).0.Data?
    ensures var (role, chunk) := Inv(ge, disk, row);
      Forward(ge, chunk) == Addr(row, role.group, role.slot, Lcol(ge, row, disk), disk)
  {
    RowBijection(ge, row, disk);
    DataRole(ge, Lcol(ge, row, disk));
    var (role, chunk) := Inv(ge, disk, row);
    ForwardOfDigits(ge, chunk, row, role.group, role.slot);
  }

  lemma DataRole(ge: Geom, lcol: nat)
    requires ge.Sized() && RoleOf(ge, lcol).Data?
    ensures var role := RoleOf(ge, lcol);
      role.group < ge.ngroups && role.slot < ge.K() && lcol == role.group * ge.g + role.slot
  {
    QuotientBound(lcol, ge.ngroups, ge.g);
  }

  lemma ForwardOfDigits(ge: Geom, chunk: nat, row: nat, group: nat, slot: nat)
    requires ge.Sized() && group < ge.ngroups && slot < ge.K()
    requires chunk == ChunkOf(ge, row, group, slot)
    ensures Forward(ge, chunk) == AddrOf(ge, row, group, slot)
  {
    ChunkDigits(ge, chunk, row, group, slot);
  }
}
