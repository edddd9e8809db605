/** Several spare assignments {disk -> spare column} at once: a redirect can land on
    another failed and assigned disk, so resolution chains (km/raid_km_dcl.h:170-297). */
module DclChain {
  import opened DclGeometry

  // ---- chains over any links ---------------------------------------------------------
  // The combinatorics alone: every column has at most one successor (its link) and at
  // most one predecessor, and no link leads to a group column.

  datatype Link = End | Hop(lcol: nat)

  ghost predicate Linked(next: seq<Link>, gcols: nat) {
    && (forall c :: 0 <= c < |next| && next[c].Hop? ==> gcols <= next[c].lcol < |next|)
    && (forall a, b :: 0 <= a < b < |next| && next[a].Hop? ==> next[a] != next[b])
  }

  /** The n-th column of the chain that starts at c. */
  function ChainCol(next: seq<Link>, c: nat, n: nat): Link {
    if n == 0 then Hop(c)
    else
      match ChainCol(next, c, n - 1)
      case End => End
      case Hop(l) => if l < |next| then next[l] else End
  }

  lemma {:induction false} ChainPrefix(next: seq<Link>, c: nat, n: nat, k: nat)
    requires k <= n && ChainCol(next, c, n).Hop?
    ensures ChainCol(next, c, k).Hop?
  {
    if k < n {
      ChainPrefix(next, c, n - 1, k);
    }
  }

  lemma {:induction false} ChainRange(next: seq<Link>, gcols: nat, c: nat, n: nat)
    requires Linked(next, gcols) && c < gcols <= |next| && ChainCol(next, c, n).Hop?
    ensures ChainCol(next, c, n).lcol < |next|
    ensures n > 0 ==> ChainCol(next, c, n).lcol >= gcols
  {
    if n > 0 {
      ChainPrefix(next, c, n, n - 1);
      ChainRange(next, gcols, c, n - 1);
    }
  }

  /** Chains of group columns are vertex-disjoint, and no chain meets itself. */
  lemma {:induction false} ChainsDisjoint(next: seq<Link>, gcols: nat, c: nat, n: nat, c': nat, n': nat)
    requires Linked(next, gcols) && c < gcols <= |next| && c' < gcols
    requires ChainCol(next, c, n).Hop? && ChainCol(next, c, n) == ChainCol(next, c', n')
    ensures c == c' && n == n'
    decreases n
  {
    ChainRange(next, gcols, c, n);
    ChainRange(next, gcols, c', n');
    if n > 0 && n' > 0 {
      ChainPrefix(next, c, n, n - 1);
      ChainPrefix(next, c', n', n' - 1);
      ChainRange(next, gcols, c, n - 1);
      ChainRange(next, gcols, c', n' - 1);
      ChainsDisjoint(next, gcols, c, n - 1, c', n' - 1);
    }
  }

  /** the columns a chain hops to, all different */
  lemma {:induction false} Visited(next: seq<Link>, gcols: nat, c: nat, n: nat,
          targets: set<nat>) returns (seen: set<nat>)
    requires Linked(next, gcols) && c < gcols <= |next| && ChainCol(next, c, n).Hop?
    requires forall l :: 0 <= l < |next| && next[l].Hop? ==> next[l].lcol in targets
    ensures |seen| == n && seen <= targets
    ensures forall x :: x in seen ==> Before(next, c, n, x)
  {
    if n == 0 {
      seen := {};
    } else {
      ChainPrefix(next, c, n, n - 1);
      ChainRange(next, gcols, c, n - 1);
      var earlier := Visited(next, gcols, c, n - 1, targets);
      var x := ChainCol(next, c, n).lcol;
      if Before(next, c, n - 1, x) {
        var k :| 0 < k <= n - 1 && ChainCol(next, c, k) == Hop(x);
        ChainsDisjoint(next, gcols, c, n, c, k);
      }
      seen := earlier + {x};
      forall y | y in seen ensures Before(next, c, n, y) {
        if y in earlier {
          var k :| 0 < k <= n - 1 && ChainCol(next, c, k) == Hop(y);
        } else {
          assert ChainCol(next, c, n) == Hop(y);
        }
      }
    }
  }

  /** the chain has hopped to x within n hops */
  ghost predicate Before(next: seq<Link>, c: nat, n: nat, x: nat) {
    exists k :: 0 < k <= n && ChainCol(next, c, k) == Hop(x)
  }

  lemma ChainBounded(next: seq<Link>, gcols: nat, c: nat, n: nat, targets: set<nat>)
    requires Linked(next, gcols) && c < gcols <= |next| && ChainCol(next, c, n).Hop?
    requires forall l :: 0 <= l < |next| && next[l].Hop? ==> next[l].lcol in targets
    ensures n <= |targets|
  {
    var seen := Visited(next, gcols, c, n, targets);
    assert targets == seen + (targets - seen);
  }

  lemma EndsOnce(next: seq<Link>, c: nat, a: nat, b: nat)
    requires ChainCol(next, c, a).Hop? && ChainCol(next, c, a + 1).End?
    requires ChainCol(next, c, b).Hop? && ChainCol(next, c, b + 1).End?
    ensures a == b
  {
    if a < b {
      ChainPrefix(next, c, b, a + 1);
    } else if b < a {
      ChainPrefix(next, c, a, b + 1);
    }
  }

  /** Where a chain of at most `bound` hops ends. */
  lemma {:induction false} LastCol(next: seq<Link>, c: nat, n: nat, bound: nat) returns (last: nat)
    requires ChainCol(next, c, n).Hop?
    requires forall k :: k > bound ==> ChainCol(next, c, k).End?
    ensures n <= last <= bound && ChainCol(next, c, last).Hop? && ChainCol(next, c, last + 1).End?
    decreases bound - n
  {
    assert n <= bound;
    if ChainCol(next, c, n + 1).End? {
      last := n;
    } else {
      last := LastCol(next, c, n + 1, bound);
    }
  }

  // ---- the three walks over links -------------------------------------------------------

  /** Follow the links: the column arrived at, and whether the walk gave up there (out of
      hops, or a link to itself). */
  function Walk(next: seq<Link>, l: nat, hops: nat): (nat, bool)
    decreases hops
  {
    if hops == 0 || l >= |next| then (l, true)
    else
      match next[l]
      case End => (l, false)
      case Hop(l') => if l' == l then (l, true) else Walk(next, l', hops - 1)
  }

  /** From a chain's n-th column the walk takes neither exit: it arrives at the last one. */
  lemma {:induction false} WalkReaches(next: seq<Link>, gcols: nat, c: nat, n: nat, here: nat, last: nat, end: nat,
          hops: nat)
    requires Linked(next, gcols) && c < gcols <= |next|
    requires ChainCol(next, c, n) == Hop(here)
    requires ChainCol(next, c, last) == Hop(end) && ChainCol(next, c, last + 1).End?
    requires n <= last < n + hops
    ensures end < |next| && next[end].End?
    ensures Walk(next, here, hops) == (end, false)
    decreases hops
  {
    ChainRange(next, gcols, c, n);
    ChainRange(next, gcols, c, last);
    if n < last {
      ChainPrefix(next, c, last, n + 1);
      if next[here] == Hop(here) {
        ChainsDisjoint(next, gcols, c, n + 1, c, n);
      }
      WalkReaches(next, gcols, c, n + 1, next[here].lcol, last, end, hops - 1);
    }
  }

  /** Does the walk come by column x? */
  function WalkMeets(next: seq<Link>, l: nat, x: nat, hops: nat): bool
    decreases hops
  {
    if hops == 0 || l >= |next| then false
    else if l == x then true
    else
      match next[l]
      case End => false
      case Hop(l') => if l' == l then false else WalkMeets(next, l', x, hops - 1)
  }

  /** the n-th column of c's chain is x */
  ghost predicate Meets(next: seq<Link>, c: nat, x: nat, n: nat) {
    ChainCol(next, c, n) == Hop(x)
  }

  lemma {:induction false} WalkMeetsChain(next: seq<Link>, gcols: nat, c: nat, n: nat, here: nat, x: nat, hops: nat)
    requires Linked(next, gcols) && c < gcols <= |next|
    requires Meets(next, c, here, n) && forall k :: k >= n + hops ==> ChainCol(next, c, k).End?
    ensures WalkMeets(next, here, x, hops) <==> exists k :: n <= k && Meets(next, c, x, k)
    decreases hops
  {
    ChainRange(next, gcols, c, n);
    assert hops > 0;
    if here == x {
      assert Meets(next, c, x, n);
    } else {
      assert ChainCol(next, c, n + 1) == next[here];
      match next[here] {
        case End =>
          forall k | n < k && Meets(next, c, x, k) ensures false {
            ChainPrefix(next, c, k, n + 1);
          }
        case Hop(there) =>
          if there == here {
            ChainsDisjoint(next, gcols, c, n + 1, c, n);
          }
          WalkMeetsChain(next, gcols, c, n + 1, there, x, hops - 1);
      }
    }
  }

  /** prev undoes next */
  ghost predicate Reversed(next: seq<Link>, prev: seq<Link>) {
    && |prev| == |next|
    && (forall l :: 0 <= l < |next| && next[l].Hop? ==> next[l].lcol < |next| && prev[next[l].lcol] == Hop(l))
    && (forall x :: 0 <= x < |prev| && prev[x].Hop? ==> prev[x].lcol < |next| && next[prev[x].lcol] == Hop(x))
  }

  /** Walk predecessors until a group column; -1 when there is none. */
  function WalkBack(prev: seq<Link>, gcols: nat, x: nat, hops: nat): int
    decreases hops
  {
    if hops == 0 || x >= |prev| then -1
    else if x < gcols then x
    else
      match prev[x]
      case End => -1
      case Hop(p) => WalkBack(prev, gcols, p, hops - 1)
  }

  /** the column before the n-th one */
  lemma ChainPred(next: seq<Link>, gcols: nat, c: nat, x: nat, n: nat) returns (p: nat)
    requires Linked(next, gcols) && c < gcols <= |next| && Meets(next, c, x, n) && n > 0
    ensures Meets(next, c, p, n - 1) && p < |next| && next[p] == Hop(x) && gcols <= x < |next|
  {
    ChainRange(next, gcols, c, n);
    ChainPrefix(next, c, n, n - 1);
    ChainRange(next, gcols, c, n - 1);
    p := ChainCol(next, c, n - 1).lcol;
  }

  lemma {:induction false} WalkBackFinds(next: seq<Link>, prev: seq<Link>, gcols: nat, c: nat, x: nat, n: nat,
          hops: nat)
    requires Linked(next, gcols) && Reversed(next, prev) && c < gcols <= |next|
    requires Meets(next, c, x, n) && n < hops
    ensures WalkBack(prev, gcols, x, hops) == c
    decreases n
  {
    if n > 0 {
      var p := ChainPred(next, gcols, c, x, n);
      WalkBackFinds(next, prev, gcols, c, p, n - 1, hops - 1);
    } else {
      assert x == c;
    }
  }

  lemma {:induction false} WalkBackMeets(next: seq<Link>, prev: seq<Link>, gcols: nat, x: nat,
          hops: nat) returns (n: nat)
    requires Reversed(next, prev) && gcols <= |next| && WalkBack(prev, gcols, x, hops) >= 0
    ensures WalkBack(prev, gcols, x, hops) < gcols
    ensures n < hops && Meets(next, WalkBack(prev, gcols, x, hops), x, n)
    decreases hops
  {
    if x < gcols {
      n := 0;
    } else {
      var n' := WalkBackMeets(next, prev, gcols, prev[x].lcol, hops - 1);
      n := n' + 1;
    }
  }

  lemma {:induction false} WalkBackRange(prev: seq<Link>, gcols: nat, x: nat, hops: nat)
    ensures WalkBack(prev, gcols, x, hops) == -1 || 0 <= WalkBack(prev, gcols, x, hops) < gcols
    decreases hops
  {
    if hops > 0 && x < |prev| && x >= gcols && prev[x].Hop? {
      WalkBackRange(prev, gcols, prev[x].lcol, hops - 1);
    }
  }

  // ---- one row, its assignments, its links -----------------------------------------------

  /** dcl_disk and dcl_lcol of one row, tabulated, each other's inverse. */
  datatype Columns = Columns(row: nat, gcols: nat, disk: seq<nat>, lcol: seq<nat>) {
    function N(): nat { |disk| }
  }

  type RowView = rv: Columns | rv.gcols <= rv.N() && Inverse(rv.disk, rv.lcol)
    witness Columns(0, 0, [], [])

  /** Every row of every geometry is a bijection, so all of the below holds of it. */
  function RowOf(ge: Geom, row: nat): (rv: RowView)
    requires ge.Valid()
    ensures rv.row == row && rv.N() == ge.N && rv.gcols == ge.GCols() && rv.gcols + ge.s == ge.N
    ensures forall x :: 0 <= x < ge.N ==> rv.disk[x] == Disk(ge, row, x) && rv.lcol[x] == Lcol(ge, row, x)
  {
    var disk := seq(ge.N, c requires 0 <= c < ge.N => Disk(ge, row, c));
    var lcol := seq(ge.N, d requires 0 <= d < ge.N => Lcol(ge, row, d));
    TabulatedInverse(ge, row, disk, lcol);
    Columns(row, ge.GCols(), disk, lcol)
  }

  lemma TabulatedInverse(ge: Geom, row: nat, disk: seq<nat>, lcol: seq<nat>)
    requires ge.Valid() && |disk| == |lcol| == ge.N
    requires forall x :: 0 <= x < ge.N ==> disk[x] == Disk(ge, row, x) && lcol[x] == Lcol(ge, row, x)
    ensures Inverse(disk, lcol)
  {
    forall x | 0 <= x < ge.N
      ensures disk[x] < ge.N && lcol[disk[x]] == x && lcol[x] < ge.N && disk[lcol[x]] == x
    {
      RowBijection(ge, row, x);
    }
  }

  datatype Assign = Assign(disk: nat, spare: nat)

  ghost predicate InRow(rv: RowView, asg: seq<Assign>) {
    forall i :: 0 <= i < |asg| ==> asg[i].disk < rv.N() && rv.gcols + asg[i].spare < rv.N()
  }

  /** distinct failed disks of the pool, distinct spare columns of the row */
  ghost predicate Assigned(rv: RowView, asg: seq<Assign>) {
    && InRow(rv, asg)
    && (forall i, j :: 0 <= i < j < |asg| ==> asg[i].disk != asg[j].disk)
    && (forall i, j :: 0 <= i < j < |asg| ==> asg[i].spare != asg[j].spare)
  }

  /** The index of the first assignment of this disk, |asg| when there is none. */
  function FindDisk(asg: seq<Assign>, d: nat, from: nat): (i: nat)
    requires from <= |asg|
    ensures from <= i <= |asg|
    ensures i < |asg| ==> asg[i].disk == d
    ensures forall k :: from <= k < i ==> asg[k].disk != d
    decreases |asg| - from
  {
    if from == |asg| || asg[from].disk == d then from else FindDisk(asg, d, from + 1)
  }

  function FindSpare(asg: seq<Assign>, j: nat, from: nat): (i: nat)
    requires from <= |asg|
    ensures from <= i <= |asg|
    ensures i < |asg| ==> asg[i].spare == j
    ensures forall k :: from <= k < i ==> asg[k].spare != j
    decreases |asg| - from
  {
    if from == |asg| || asg[from].spare == j then from else FindSpare(asg, j, from + 1)
  }

  /** Where the write map goes on from this column: its disk's spare column. */
  function LinkOf(rv: RowView, asg: seq<Assign>, lcol: nat): Link
    requires lcol < rv.N()
  {
    var i := FindDisk(asg, rv.disk[lcol], 0);
    if i == |asg| then End else Hop(rv.gcols + asg[i].spare)
  }

  function Links(rv: RowView, asg: seq<Assign>): (next: seq<Link>)
    ensures |next| == rv.N()
    ensures forall c :: 0 <= c < rv.N() ==> next[c] == LinkOf(rv, asg, c)
  {
    seq(rv.N(), c requires 0 <= c < rv.N() => LinkOf(rv, asg, c))
  }

  ghost function Targets(rv: RowView, asg: seq<Assign>): (t: set<nat>)
    ensures |t| <= |asg|
    ensures forall i :: 0 <= i < |asg| ==> rv.gcols + asg[i].spare in t
  {
    if asg == [] then {}
    else
      var t := Targets(rv, asg[..|asg| - 1]);
      assert forall i :: 0 <= i < |asg| - 1 ==> asg[i] == asg[..|asg| - 1][i];
      t + {rv.gcols + asg[|asg| - 1].spare}
  }

  /** Bijectivity of the row makes the links a set of chains: a spare column's only
      predecessor is the column of the disk assigned to it. */
  lemma LinksLinked(rv: RowView, asg: seq<Assign>)
    requires Assigned(rv, asg)
    ensures Linked(Links(rv, asg), rv.gcols)
    ensures forall l :: 0 <= l < rv.N() && Links(rv, asg)[l].Hop? ==> Links(rv, asg)[l].lcol in Targets(rv, asg)
  {
    var next := Links(rv, asg);
    forall a, b | 0 <= a < b < |next| && next[a].Hop? ensures next[a] != next[b] {
      assert rv.lcol[rv.disk[a]] == a && rv.lcol[rv.disk[b]] == b;
      var i, j := FindDisk(asg, rv.disk[a], 0), FindDisk(asg, rv.disk[b], 0);
      assert i != j || i == |asg|;
    }
  }

  /** A chain from a group column uses each assignment at most once. */
  lemma HopsBounded(rv: RowView, asg: seq<Assign>, c: nat)
    requires Assigned(rv, asg) && c < rv.gcols
    ensures forall k :: k > |asg| ==> ChainCol(Links(rv, asg), c, k).End?
  {
    LinksLinked(rv, asg);
    forall k: nat | k > |asg| ensures ChainCol(Links(rv, asg), c, k).End? {
      if ChainCol(Links(rv, asg), c, k).Hop? {
        ChainBounded(Links(rv, asg), rv.gcols, c, k, Targets(rv, asg));
      }
    }
  }

  // ---- the walks, as functions of the hops left --------------------------------------------

  datatype Endpoint = Endpoint(disk: nat, dead: bool)

  /** dcl_resolve with `hops` loop iterations left. */
  function ResolveFrom(rv: RowView, asg: seq<Assign>, mark: seq<nat>, lcol: nat, hops: nat): Endpoint
    requires InRow(rv, asg) && lcol < rv.N() && |mark| == |asg|
    decreases hops
  {
    var d := rv.disk[lcol];
    if hops == 0 then Endpoint(d, true)
    else
      var i := FindDisk(asg, d, 0);
      if i == |asg| then Endpoint(d, false)
      else if rv.row >= mark[i] then Endpoint(d, true)
      else
        var nlcol := rv.gcols + asg[i].spare;
        if nlcol == lcol then Endpoint(d, true) else ResolveFrom(rv, asg, mark, nlcol, hops - 1)
  }

  /** dcl_chain_traverses with `hops` loop iterations left. */
  function TraversesFrom(rv: RowView, asg: seq<Assign>, lcol: nat, X: nat, hops: nat): bool
    requires InRow(rv, asg) && lcol < rv.N()
    decreases hops
  {
    if hops == 0 then false
    else if rv.disk[lcol] == X then true
    else
      var i := FindDisk(asg, rv.disk[lcol], 0);
      if i == |asg| then false
      else
        var nlcol := rv.gcols + asg[i].spare;
        if nlcol == lcol then false else TraversesFrom(rv, asg, nlcol, X, hops - 1)
  }

  /** dcl_chain_root with `hops` loop iterations left; -1 = no group column. */
  function RootFrom(rv: RowView, asg: seq<Assign>, X: nat, hops: nat): int
    requires InRow(rv, asg) && X < rv.N()
    decreases hops
  {
    if hops == 0 then -1
    else
      var lcol := rv.lcol[X];
      if lcol < rv.gcols then lcol
      else
        var i := FindSpare(asg, lcol - rv.gcols, 0);
        if i == |asg| then -1 else RootFrom(rv, asg, asg[i].disk, hops - 1)
  }

  /** the calls with the loops' bound: hops <= nas */
  function Traverses(rv: RowView, asg: seq<Assign>, lcol: nat, X: nat): bool
    requires InRow(rv, asg) && lcol < rv.N()
  {
    TraversesFrom(rv, asg, lcol, X, |asg| + 1)
  }

  function Root(rv: RowView, asg: seq<Assign>, X: nat): int
    requires InRow(rv, asg) && X < rv.N()
  {
    RootFrom(rv, asg, X, |asg| + 1)
  }

  // ---- the loops -----------------------------------------------------------------------------

  method IndexOfDisk(asg: seq<Assign>, d: nat) returns (i: nat)
    ensures i == FindDisk(asg, d, 0)
  {
    i := 0;
    while i < |asg| && asg[i].disk != d
      invariant i <= |asg| && FindDisk(asg, d, i) == FindDisk(asg, d, 0)
    {
      i := i + 1;
    }
  }

  method IndexOfSpare(asg: seq<Assign>, j: nat) returns (i: nat)
    ensures i == FindSpare(asg, j, 0)
  {
    i := 0;
    while i < |asg| && asg[i].spare != j
      invariant i <= |asg| && FindSpare(asg, j, i) == FindSpare(asg, j, 0)
    {
      i := i + 1;
    }
  }

  method Resolve(rv: RowView, asg: seq<Assign>, mark: seq<nat>, col: nat) returns (disk: nat, dead: bool)
    requires InRow(rv, asg) && col < rv.N() && |mark| == |asg|
    ensures Endpoint(disk, dead) == ResolveFrom(rv, asg, mark, col, |asg| + 1)
    ensures Assigned(rv, asg) && col < rv.gcols ==> ResolvedTo(rv, asg, mark, col, disk, dead)
  {
    if Assigned(rv, asg) && col < rv.gcols {
      ResolveExactly(rv, asg, mark, col);
    }
    hide ResolvedTo, Assigned;
    var lcol, hops := col, 0;
    disk := rv.disk[lcol];
    while hops <= |asg|
      invariant hops <= |asg| + 1 && lcol < rv.N() && disk == rv.disk[lcol]
      invariant ResolveFrom(rv, asg, mark, lcol, |asg| + 1 - hops) == ResolveFrom(rv, asg, mark, col, |asg| + 1)
    {
      var i := IndexOfDisk(asg, disk);
      if i == |asg| {
        return disk, false;
      }
      if rv.row >= mark[i] {
        return disk, true;
      }
      var nlcol := rv.gcols + asg[i].spare;
      if nlcol == lcol {
        return disk, true;
      }
      lcol := nlcol;
      disk := rv.disk[lcol];
      hops := hops + 1;
    }
    return disk, true;
  }

  method ChainTraverses(rv: RowView, asg: seq<Assign>, col: nat, X: nat) returns (yes: bool)
    requires InRow(rv, asg) && col < rv.N()
    ensures yes == Traverses(rv, asg, col, X)
    ensures Assigned(rv, asg) && col < rv.gcols && X < rv.N() ==>
      (yes <==> exists n: nat :: OnChain(rv, asg, col, X, n))
  {
    if Assigned(rv, asg) && col < rv.gcols && X < rv.N() {
      RootIsTheTraverser(rv, asg, col, X);
    }
    hide OnChain, Assigned;
    var lcol, hops := col, 0;
    var disk := rv.disk[lcol];
    while hops <= |asg|
      invariant hops <= |asg| + 1 && lcol < rv.N() && disk == rv.disk[lcol]
      invariant TraversesFrom(rv, asg, lcol, X, |asg| + 1 - hops) == Traverses(rv, asg, col, X)
    {
      if disk == X {
        return true;
      }
      var i := IndexOfDisk(asg, disk);
      if i == |asg| {
        return false;
      }
      var nlcol := rv.gcols + asg[i].spare;
      if nlcol == lcol {
        return false;
      }
      lcol := nlcol;
      disk := rv.disk[lcol];
      hops := hops + 1;
    }
    return false;
  }

  /** dcl_chain_root: the inverse walk finds the one column whose write chain traverses
      the disk, and says -1 exactly when there is none. */
  method ChainRoot(rv: RowView, asg: seq<Assign>, disk: nat) returns (root: int)
    requires Assigned(rv, asg) && disk < rv.N()
    ensures root == Root(rv, asg, disk)
    ensures root == -1 || 0 <= root < rv.gcols
    ensures forall c :: 0 <= c < rv.gcols ==> (Traverses(rv, asg, c, disk) <==> root == c)
  {
    RootOfEveryColumn(rv, asg, disk);
    var X: nat, hops := disk, 0;
    while hops <= |asg|
      invariant hops <= |asg| + 1 && X < rv.N()
      invariant RootFrom(rv, asg, X, |asg| + 1 - hops) == Root(rv, asg, disk)
    {
      var lcol := rv.lcol[X];
      if lcol < rv.gcols {
        return lcol;
      }
      var i := IndexOfSpare(asg, lcol - rv.gcols);
      if i == |asg| {
        return -1;
      }
      X := asg[i].disk;
      hops := hops + 1;
    }
    return -1;
  }

  // ---- the walks of the code are walks over links -----------------------------------------

  function PrevOf(rv: RowView, asg: seq<Assign>, l: nat): Link
    requires InRow(rv, asg)
  {
    if l < rv.gcols then End
    else
      var i := FindSpare(asg, l - rv.gcols, 0);
      if i == |asg| then End else Hop(rv.lcol[asg[i].disk])
  }

  function Prevs(rv: RowView, asg: seq<Assign>): (prev: seq<Link>)
    requires InRow(rv, asg)
    ensures |prev| == rv.N()
    ensures forall c :: 0 <= c < rv.N() ==> prev[c] == PrevOf(rv, asg, c)
  {
    seq(rv.N(), c requires 0 <= c < rv.N() => PrevOf(rv, asg, c))
  }

  /** both lookups find the one assignment with this disk or this spare column */
  lemma FoundBack(asg: seq<Assign>, i: nat, d: nat)
    requires i < |asg| && asg[i].disk == d
    requires forall a, b :: 0 <= a < b < |asg| ==> asg[a].disk != asg[b].disk
    requires forall a, b :: 0 <= a < b < |asg| ==> asg[a].spare != asg[b].spare
    ensures FindDisk(asg, d, 0) == i && FindSpare(asg, asg[i].spare, 0) == i
  {
    var i', i'' := FindDisk(asg, d, 0), FindSpare(asg, asg[i].spare, 0);
  }

  lemma LinkThenPrev(rv: RowView, asg: seq<Assign>, l: nat)
    requires Assigned(rv, asg) && l < rv.N() && LinkOf(rv, asg, l).Hop?
    ensures LinkOf(rv, asg, l).lcol < rv.N() && PrevOf(rv, asg, LinkOf(rv, asg, l).lcol) == Hop(l)
  {
    var i := FindDisk(asg, rv.disk[l], 0);
    FoundBack(asg, i, rv.disk[l]);
    assert rv.lcol[rv.disk[l]] == l;
  }

  lemma PrevThenLink(rv: RowView, asg: seq<Assign>, x: nat)
    requires Assigned(rv, asg) && x < rv.N() && PrevOf(rv, asg, x).Hop?
    ensures PrevOf(rv, asg, x).lcol < rv.N() && LinkOf(rv, asg, PrevOf(rv, asg, x).lcol) == Hop(x)
  {
    var i := FindSpare(asg, x - rv.gcols, 0);
    FoundBack(asg, i, asg[i].disk);
    assert rv.disk[rv.lcol[asg[i].disk]] == asg[i].disk;
  }

  /** An assignment's disk sits on the only column that links to its spare column. */
  lemma LinksReversed(rv: RowView, asg: seq<Assign>)
    requires Assigned(rv, asg)
    ensures Reversed(Links(rv, asg), Prevs(rv, asg))
  {
    var next, prev := Links(rv, asg), Prevs(rv, asg);
    forall l | 0 <= l < |next| && next[l].Hop?
      ensures next[l].lcol < |next| && prev[next[l].lcol] == Hop(l)
    {
      LinkThenPrev(rv, asg, l);
    }
    forall x | 0 <= x < |prev| && prev[x].Hop?
      ensures prev[x].lcol < |next| && next[prev[x].lcol] == Hop(x)
    {
      PrevThenLink(rv, asg, x);
    }
  }

  /** every hop is covered: the WRITE map's marks */
  ghost predicate AllOpen(rv: RowView, mark: seq<nat>) {
    forall i :: 0 <= i < |mark| ==> rv.row < mark[i]
  }

  lemma {:induction false} ResolveIsWalk(rv: RowView, asg: seq<Assign>, mark: seq<nat>, l: nat, hops: nat)
    requires InRow(rv, asg) && l < rv.N() && |mark| == |asg| && AllOpen(rv, mark)
    ensures var (end, gaveUp) := Walk(Links(rv, asg), l, hops);
      end < rv.N() && ResolveFrom(rv, asg, mark, l, hops) == Endpoint(rv.disk[end], gaveUp)
    decreases hops
  {
    if hops > 0 {
      var i := FindDisk(asg, rv.disk[l], 0);
      if i < |asg| && rv.gcols + asg[i].spare != l {
        ResolveIsWalk(rv, asg, mark, rv.gcols + asg[i].spare, hops - 1);
      }
    }
  }

  lemma {:induction false} TraversesIsWalk(rv: RowView, asg: seq<Assign>, l: nat, X: nat, hops: nat)
    requires InRow(rv, asg) && l < rv.N() && X < rv.N()
    ensures TraversesFrom(rv, asg, l, X, hops) == WalkMeets(Links(rv, asg), l, rv.lcol[X], hops)
    decreases hops
  {
    assert rv.lcol[rv.disk[l]] == l && rv.disk[rv.lcol[X]] == X;
    if hops > 0 {
      var i := FindDisk(asg, rv.disk[l], 0);
      if i < |asg| && rv.gcols + asg[i].spare != l {
        TraversesIsWalk(rv, asg, rv.gcols + asg[i].spare, X, hops - 1);
      }
    }
  }

  lemma {:induction false} RootIsWalk(rv: RowView, asg: seq<Assign>, X: nat, hops: nat)
    requires InRow(rv, asg) && X < rv.N()
    ensures RootFrom(rv, asg, X, hops) == WalkBack(Prevs(rv, asg), rv.gcols, rv.lcol[X], hops)
    decreases hops
  {
    assert rv.lcol[X] < rv.N();
    if hops > 0 && rv.lcol[X] >= rv.gcols {
      var i := FindSpare(asg, rv.lcol[X] - rv.gcols, 0);
      if i < |asg| {
        RootIsWalk(rv, asg, asg[i].disk, hops - 1);
      }
    }
  }

  // ---- termination and endpoints -----------------------------------------------------------

  /** The last hop of a group column's write chain, and the column it arrives at. */
  lemma ChainEnds(rv: RowView, asg: seq<Assign>, mark: seq<nat>, c: nat) returns (last: nat, end: nat)
    requires Assigned(rv, asg) && c < rv.gcols && |mark| == |asg| && AllOpen(rv, mark)
    ensures last <= |asg| && end < rv.N() && Links(rv, asg)[end].End?
    ensures Meets(Links(rv, asg), c, end, last)
    ensures ResolveFrom(rv, asg, mark, c, |asg| + 1) == Endpoint(rv.disk[end], false)
  {
    var next := Links(rv, asg);
    LinksLinked(rv, asg);
    HopsBounded(rv, asg, c);
    last := LastCol(next, c, 0, |asg|);
    end := ChainCol(next, c, last).lcol;
    WalkReaches(next, rv.gcols, c, 0, c, last, end, |asg| + 1);
    ResolveIsWalk(rv, asg, mark, c, |asg| + 1);
  }

  /** the marks of the write map */
  function OpenMarks(rv: RowView, n: nat): (mark: seq<nat>)
    ensures |mark| == n && AllOpen(rv, mark)
  {
    seq(n, _ => rv.row + 1)
  }

  /** The write endpoint of a group column. */
  function WriteEnd(rv: RowView, asg: seq<Assign>, c: nat): nat
    requires InRow(rv, asg) && c < rv.N()
  {
    ResolveFrom(rv, asg, OpenMarks(rv, |asg|), c, |asg| + 1).disk
  }

  /** With every mark open, dcl_resolve from a group column ends alive at a disk that is
      not assigned, however many assignments the chain goes through. */
  lemma ResolveLive(rv: RowView, asg: seq<Assign>, mark: seq<nat>, c: nat)
    requires Assigned(rv, asg) && c < rv.gcols && |mark| == |asg| && AllOpen(rv, mark)
    ensures ResolveFrom(rv, asg, mark, c, |asg| + 1) == Endpoint(WriteEnd(rv, asg, c), false)
    ensures forall i :: 0 <= i < |asg| ==> asg[i].disk != WriteEnd(rv, asg, c)
  {
    var n, end := ChainEnds(rv, asg, mark, c);
    var n', end' := ChainEnds(rv, asg, OpenMarks(rv, |asg|), c);
    EndsOnce(Links(rv, asg), c, n, n');
    assert Links(rv, asg)[end] == LinkOf(rv, asg, end);
  }

  /** Resolved endpoints of a row never collide. */
  lemma EndpointsDistinct(rv: RowView, asg: seq<Assign>, c: nat, c': nat)
    requires Assigned(rv, asg) && c < rv.gcols && c' < rv.gcols && c != c'
    ensures WriteEnd(rv, asg, c) != WriteEnd(rv, asg, c')
  {
    var n, end := ChainEnds(rv, asg, OpenMarks(rv, |asg|), c);
    var n', end' := ChainEnds(rv, asg, OpenMarks(rv, |asg|), c');
    if rv.disk[end] == rv.disk[end'] {
      assert rv.lcol[rv.disk[end]] == end && rv.lcol[rv.disk[end']] == end';
      LinksLinked(rv, asg);
      ChainsDisjoint(Links(rv, asg), rv.gcols, c, n, c', n');
    }
  }

  /** So in every row of a pool, with any disks on any of its spare columns: writes to two
      chunks of the row go to two disks of the pool, neither of them one with an assignment,
      and with no assignment each goes where the row map says. */
  lemma PoolEndpoints(ge: Geom, row: nat, asg: seq<Assign>, c: nat, c': nat)
    requires ge.Valid() && c < ge.GCols() && c' < ge.GCols() && c != c'
    requires forall i :: 0 <= i < |asg| ==> asg[i].disk < ge.N && asg[i].spare < ge.s
    requires forall i, j :: 0 <= i < j < |asg| ==> asg[i].disk != asg[j].disk && asg[i].spare != asg[j].spare
    ensures var rv := RowOf(ge, row);
      Assigned(rv, asg) && WriteEnd(rv, asg, c) < ge.N
      && WriteEnd(rv, asg, c) != WriteEnd(rv, asg, c')
      && (forall i :: 0 <= i < |asg| ==> asg[i].disk != WriteEnd(rv, asg, c))
      && (asg == [] ==> WriteEnd(rv, asg, c) == Disk(ge, row, c))
  {
    var rv := RowOf(ge, row);
    EndpointsDistinct(rv, asg, c, c');
    ResolveLive(rv, asg, OpenMarks(rv, |asg|), c);
    var n, end := ChainEnds(rv, asg, OpenMarks(rv, |asg|), c);
  }

  // ---- the inverse walk ----------------------------------------------------------------------

  /** X is the n-th disk of group column c's write chain. */
  ghost predicate OnChain(rv: RowView, asg: seq<Assign>, c: nat, X: nat, n: nat)
    requires X < rv.N()
  {
    Meets(Links(rv, asg), c, rv.lcol[X], n)
  }

  /** The inverse walk and the forward walk agree, and both say whether X is on the chain. */
  lemma RootIsTheTraverser(rv: RowView, asg: seq<Assign>, c: nat, X: nat)
    requires Assigned(rv, asg) && c < rv.gcols && X < rv.N()
    ensures Traverses(rv, asg, c, X) <==> Root(rv, asg, X) == c
    ensures Traverses(rv, asg, c, X) <==> exists n: nat :: OnChain(rv, asg, c, X, n)
  {
    var next, prev, x, hops := Links(rv, asg), Prevs(rv, asg), rv.lcol[X], |asg| + 1;
    LinksLinked(rv, asg);
    LinksReversed(rv, asg);
    HopsBounded(rv, asg, c);
    TraversesIsWalk(rv, asg, c, X, hops);
    RootIsWalk(rv, asg, X, hops);
    WalkMeetsChain(next, rv.gcols, c, 0, c, x, hops);
    if n: nat :| Meets(next, c, x, n) {
      assert OnChain(rv, asg, c, X, n);
      WalkBackFinds(next, prev, rv.gcols, c, x, n, hops);
    }
    if WalkBack(prev, rv.gcols, x, hops) == c {
      var n := WalkBackMeets(next, prev, rv.gcols, x, hops);
    }
  }

  lemma RootOfEveryColumn(rv: RowView, asg: seq<Assign>, X: nat)
    requires Assigned(rv, asg) && X < rv.N()
    ensures Root(rv, asg, X) == -1 || 0 <= Root(rv, asg, X) < rv.gcols
    ensures forall c :: 0 <= c < rv.gcols ==> (Traverses(rv, asg, c, X) <==> Root(rv, asg, X) == c)
  {
    RootIsWalk(rv, asg, X, |asg| + 1);
    WalkBackRange(Prevs(rv, asg), rv.gcols, rv.lcol[X], |asg| + 1);
    forall c | 0 <= c < rv.gcols ensures Traverses(rv, asg, c, X) <==> Root(rv, asg, X) == c {
      RootIsTheTraverser(rv, asg, c, X);
    }
  }

  // ---- arming one more assignment ---------------------------------------------------------------

  /** Only the link of X's own column changes: it had none, now it has one. */
  lemma ArmKeepsLinks(rv: RowView, asg: seq<Assign>, X: nat, j: nat)
    requires Assigned(rv, asg + [Assign(X, j)])
    ensures Assigned(rv, asg) && X < rv.N()
    ensures forall l :: 0 <= l < rv.N() && l != rv.lcol[X] ==>
      Links(rv, asg + [Assign(X, j)])[l] == Links(rv, asg)[l]
    ensures Links(rv, asg)[rv.lcol[X]].End?
  {
    var asg' := asg + [Assign(X, j)];
    assert forall i :: 0 <= i < |asg| ==> asg'[i] == asg[i];
    assert asg'[|asg|] == Assign(X, j);
    assert rv.disk[rv.lcol[X]] == X;
    forall l | 0 <= l < rv.N()
      ensures l != rv.lcol[X] ==> LinkOf(rv, asg', l) == LinkOf(rv, asg, l)
      ensures l == rv.lcol[X] ==> LinkOf(rv, asg, l).End?
    {
      assert rv.lcol[rv.disk[l]] == l;
      var i, i' := FindDisk(asg, rv.disk[l], 0), FindDisk(asg', rv.disk[l], 0);
    }
  }

  /** Chains over links that differ only at x agree until they meet x. */
  lemma {:induction false} SamePrefix(next: seq<Link>, next': seq<Link>, x: nat, c: nat, n: nat)
    requires |next| == |next'| && forall l :: 0 <= l < |next| && l != x ==> next'[l] == next[l]
    requires forall k :: 0 <= k < n ==> !Meets(next, c, x, k)
    ensures ChainCol(next', c, n) == ChainCol(next, c, n)
  {
    if n > 0 {
      SamePrefix(next, next', x, c, n - 1);
      assert !Meets(next, c, x, n - 1);
    }
  }

  lemma FirstMeeting(next: seq<Link>, c: nat, x: nat, n: nat) returns (k: nat)
    ensures k <= n && (forall i :: 0 <= i < k ==> !Meets(next, c, x, i))
    ensures k < n ==> Meets(next, c, x, k)
  {
    k := 0;
    while k < n && !Meets(next, c, x, k)
      invariant k <= n && forall i :: 0 <= i < k ==> !Meets(next, c, x, i)
    {
      k := k + 1;
    }
  }

  /** A chain that meets x in one of the two meets it in the other too. */
  lemma SameMeetings(next: seq<Link>, next': seq<Link>, gcols: nat, x: nat, c: nat, n: nat)
    requires |next| == |next'| && forall l :: 0 <= l < |next| && l != x ==> next'[l] == next[l]
    requires Linked(next, gcols) && Linked(next', gcols) && c < gcols <= |next|
    ensures Meets(next, c, x, n) <==> Meets(next', c, x, n)
  {
    var k := FirstMeeting(next, c, x, n);
    SamePrefix(next, next', x, c, k);
    if k < n {
      if Meets(next, c, x, n) {
        ChainsDisjoint(next, gcols, c, n, c, k);
      }
      if Meets(next', c, x, n) {
        ChainsDisjoint(next', gcols, c, n, c, k);
      }
    }
  }

  /** Arming {X -> j} moves the write endpoint of one group column of a row at most: the
      chain root of X, from X itself to another disk.  The others stay where they are. */
  lemma ArmMovesOnlyTheRoot(rv: RowView, asg: seq<Assign>, X: nat, j: nat, c: nat)
    requires Assigned(rv, asg + [Assign(X, j)]) && c < rv.gcols
    ensures Assigned(rv, asg) && X < rv.N()
    ensures Root(rv, asg, X) == c <==> Root(rv, asg + [Assign(X, j)], X) == c
    ensures Root(rv, asg, X) != c ==> WriteEnd(rv, asg + [Assign(X, j)], c) == WriteEnd(rv, asg, c)
    ensures Root(rv, asg, X) == c ==> WriteEnd(rv, asg, c) == X && WriteEnd(rv, asg + [Assign(X, j)], c) != X
  {
    hide Linked;
    var asg' := asg + [Assign(X, j)];
    ArmKeepsLinks(rv, asg, X, j);
    LinksLinked(rv, asg);
    LinksLinked(rv, asg');
    forall n: nat ensures OnChain(rv, asg, c, X, n) <==> OnChain(rv, asg', c, X, n) {
      SameMeetings(Links(rv, asg), Links(rv, asg'), rv.gcols, rv.lcol[X], c, n);
    }
    RootIsTheTraverser(rv, asg, c, X);
    RootIsTheTraverser(rv, asg', c, X);
    if n: nat :| OnChain(rv, asg, c, X, n) {
      ArmMovesEnd(rv, asg, X, j, c, n);
    } else {
      ArmKeepsEnd(rv, asg, X, j, c);
    }
  }

  lemma ArmMovesEnd(rv: RowView, asg: seq<Assign>, X: nat, j: nat, c: nat, n: nat)
    requires Assigned(rv, asg + [Assign(X, j)]) && Assigned(rv, asg) && c < rv.gcols && X < rv.N()
    requires OnChain(rv, asg, c, X, n)
    ensures WriteEnd(rv, asg, c) == X && WriteEnd(rv, asg + [Assign(X, j)], c) != X
  {
    // X is not assigned yet: the old chain ends there; the new one ends unassigned
    var asg' := asg + [Assign(X, j)];
    ArmKeepsLinks(rv, asg, X, j);
    var last, end := ChainEnds(rv, asg, OpenMarks(rv, |asg|), c);
    EndsOnce(Links(rv, asg), c, n, last);
    assert rv.disk[rv.lcol[X]] == X;
    ResolveLive(rv, asg', OpenMarks(rv, |asg'|), c);
    assert asg'[|asg|] == Assign(X, j);
  }

  lemma ArmKeepsEnd(rv: RowView, asg: seq<Assign>, X: nat, j: nat, c: nat)
    requires Assigned(rv, asg + [Assign(X, j)]) && Assigned(rv, asg) && c < rv.gcols && X < rv.N()
    requires forall n: nat :: !OnChain(rv, asg, c, X, n)
    ensures WriteEnd(rv, asg + [Assign(X, j)], c) == WriteEnd(rv, asg, c)
  {
    var asg' := asg + [Assign(X, j)];
    ArmKeepsLinks(rv, asg, X, j);
    var next, next' := Links(rv, asg), Links(rv, asg');
    var last, end := ChainEnds(rv, asg, OpenMarks(rv, |asg|), c);
    var last', end' := ChainEnds(rv, asg', OpenMarks(rv, |asg'|), c);
    forall k: nat ensures !Meets(next, c, rv.lcol[X], k) {
      assert !OnChain(rv, asg, c, X, k);
    }
    SamePrefix(next, next', rv.lcol[X], c, last);
    SamePrefix(next, next', rv.lcol[X], c, last + 1);
    EndsOnce(next', c, last, last');
  }

  // ---- marks ---------------------------------------------------------------------------------

  /** assignment i's disk is the n-th of column c's chain, and its mark does not cover the row */
  ghost predicate StopsAt(rv: RowView, asg: seq<Assign>, mark: seq<nat>, c: nat, i: nat, n: nat)
    requires InRow(rv, asg) && |mark| == |asg|
  {
    i < |asg| && OnChain(rv, asg, c, asg[i].disk, n) && rv.row >= mark[i]
  }

  /** ... and it is the first such disk */
  ghost predicate FirstStop(rv: RowView, asg: seq<Assign>, mark: seq<nat>, c: nat, i: nat, n: nat)
    requires InRow(rv, asg) && |mark| == |asg|
  {
    StopsAt(rv, asg, mark, c, i, n) && forall j: nat, k: nat :: k < n ==> !StopsAt(rv, asg, mark, c, j, k)
  }

  /** what dcl_resolve is to say of column c: dead at the first disk on its write chain whose mark
      does not cover the row, and alive, at a disk with no assignment, when there is none */
  ghost predicate ResolvedTo(rv: RowView, asg: seq<Assign>, mark: seq<nat>, c: nat, disk: nat, dead: bool)
    requires InRow(rv, asg) && |mark| == |asg|
  {
    && (!dead <==> forall i: nat, n: nat :: !StopsAt(rv, asg, mark, c, i, n))
    && (dead ==> exists i: nat, n: nat :: FirstStop(rv, asg, mark, c, i, n) && disk == asg[i].disk)
    && (!dead ==> forall i :: 0 <= i < |asg| ==> asg[i].disk != disk)
    && (!dead ==> exists n: nat :: disk < rv.N() && OnChain(rv, asg, c, disk, n))
  }

  /** the column at which the walk stands is the n-th of the chain: the assignment that can stop it
      there is that of its disk */
  lemma {:induction false} StopHere(rv: RowView, asg: seq<Assign>, mark: seq<nat>, c: nat, n: nat, l: nat)
    requires Assigned(rv, asg) && |mark| == |asg| && l < rv.N() && Meets(Links(rv, asg), c, l, n)
    ensures var i := FindDisk(asg, rv.disk[l], 0);
      i < |asg| ==> (StopsAt(rv, asg, mark, c, i, n) <==> rv.row >= mark[i])
    ensures forall j: nat :: StopsAt(rv, asg, mark, c, j, n) ==> j == FindDisk(asg, rv.disk[l], 0)
    ensures OnChain(rv, asg, c, rv.disk[l], n)
  {
    assert rv.lcol[rv.disk[l]] == l;
    forall j: nat | StopsAt(rv, asg, mark, c, j, n) ensures j == FindDisk(asg, rv.disk[l], 0) {
      assert rv.disk[rv.lcol[asg[j].disk]] == asg[j].disk;
      FoundBack(asg, j, rv.disk[l]);
    }
  }

  /** past the end of a chain nothing stops it */
  lemma {:induction false} NoStopPast(rv: RowView, asg: seq<Assign>, mark: seq<nat>, c: nat, n: nat)
    requires InRow(rv, asg) && |mark| == |asg| && ChainCol(Links(rv, asg), c, n).End?
    ensures forall i: nat, k: nat :: k >= n ==> !StopsAt(rv, asg, mark, c, i, k)
  {
    forall i: nat, k: nat | k >= n && StopsAt(rv, asg, mark, c, i, k) ensures false {
      ChainPrefix(Links(rv, asg), c, k, n);
    }
  }

  /** the walk stands at a disk with no assignment */
  lemma {:induction false} EndsAlive(rv: RowView, asg: seq<Assign>, mark: seq<nat>, c: nat, n: nat, l: nat)
    requires Assigned(rv, asg) && |mark| == |asg| && l < rv.N() && Meets(Links(rv, asg), c, l, n)
    requires FindDisk(asg, rv.disk[l], 0) == |asg|
    requires forall i: nat, k: nat :: k < n ==> !StopsAt(rv, asg, mark, c, i, k)
    ensures ResolvedTo(rv, asg, mark, c, rv.disk[l], false)
  {
    StopHere(rv, asg, mark, c, n, l);
    assert ChainCol(Links(rv, asg), c, n + 1) == LinkOf(rv, asg, l);
    NoStopPast(rv, asg, mark, c, n + 1);
    hide StopsAt, OnChain;
    assert forall i: nat :: !StopsAt(rv, asg, mark, c, i, n);
  }

  /** ... at one whose assignment's mark does not cover the row */
  lemma {:induction false} EndsDead(rv: RowView, asg: seq<Assign>, mark: seq<nat>, c: nat, n: nat, l: nat)
    requires Assigned(rv, asg) && |mark| == |asg| && l < rv.N() && Meets(Links(rv, asg), c, l, n)
    requires var i := FindDisk(asg, rv.disk[l], 0); i < |asg| && rv.row >= mark[i]
    requires forall i: nat, k: nat :: k < n ==> !StopsAt(rv, asg, mark, c, i, k)
    ensures ResolvedTo(rv, asg, mark, c, rv.disk[l], true)
  {
    StopHere(rv, asg, mark, c, n, l);
    hide StopsAt, OnChain;
    assert FirstStop(rv, asg, mark, c, FindDisk(asg, rv.disk[l], 0), n);
  }

  /** ... or at one whose mark covers it: the walk goes on to another column */
  lemma {:induction false} GoesOn(rv: RowView, asg: seq<Assign>, mark: seq<nat>, c: nat, n: nat, l: nat)
    requires Assigned(rv, asg) && |mark| == |asg| && c < rv.gcols && l < rv.N() && Meets(Links(rv, asg), c, l, n)
    requires var i := FindDisk(asg, rv.disk[l], 0); i < |asg| && rv.row < mark[i]
    requires forall i: nat, k: nat :: k < n ==> !StopsAt(rv, asg, mark, c, i, k)
    ensures var there := rv.gcols + asg[FindDisk(asg, rv.disk[l], 0)].spare;
      there != l && there < rv.N() && Meets(Links(rv, asg), c, there, n + 1)
    ensures forall i: nat, k: nat :: k < n + 1 ==> !StopsAt(rv, asg, mark, c, i, k)
  {
    var next, i := Links(rv, asg), FindDisk(asg, rv.disk[l], 0);
    StopHere(rv, asg, mark, c, n, l);
    assert ChainCol(next, c, n + 1) == LinkOf(rv, asg, l) == Hop(rv.gcols + asg[i].spare);
    if rv.gcols + asg[i].spare == l {
      LinksLinked(rv, asg);
      ChainsDisjoint(next, rv.gcols, c, n + 1, c, n);
    }
    hide StopsAt, OnChain;
    assert forall i: nat :: !StopsAt(rv, asg, mark, c, i, n);
  }

  lemma HopsLeft(rv: RowView, asg: seq<Assign>, c: nat, n: nat, l: nat, hops: nat)
    requires Assigned(rv, asg) && c < rv.gcols && Meets(Links(rv, asg), c, l, n) && n + hops == |asg| + 1
    ensures InRow(rv, asg) && hops > 0
  {
    HopsBounded(rv, asg, c);
    hide ChainCol, Links;
  }

  lemma ResolveStep(rv: RowView, asg: seq<Assign>, mark: seq<nat>, l: nat, hops: nat)
    requires InRow(rv, asg) && l < rv.N() && |mark| == |asg| && hops > 0
    ensures var i, d := FindDisk(asg, rv.disk[l], 0), rv.disk[l];
      && (i == |asg| ==> ResolveFrom(rv, asg, mark, l, hops) == Endpoint(d, false))
      && (i < |asg| && rv.row >= mark[i] ==> ResolveFrom(rv, asg, mark, l, hops) == Endpoint(d, true))
      && (i < |asg| && rv.row < mark[i] && rv.gcols + asg[i].spare != l ==>
            ResolveFrom(rv, asg, mark, l, hops) == ResolveFrom(rv, asg, mark, rv.gcols + asg[i].spare, hops - 1))
  {
  }

  lemma {:induction false} ResolvesFrom(rv: RowView, asg: seq<Assign>, mark: seq<nat>, c: nat, n: nat, l: nat,
                                        hops: nat)
    requires Assigned(rv, asg) && |mark| == |asg| && c < rv.gcols && l < rv.N()
    requires Meets(Links(rv, asg), c, l, n) && n + hops == |asg| + 1
    requires forall i: nat, k: nat :: k < n ==> !StopsAt(rv, asg, mark, c, i, k)
    ensures var e := ResolveFrom(rv, asg, mark, l, hops);
      ResolvedTo(rv, asg, mark, c, e.disk, e.dead)
    decreases hops
  {
    var i := FindDisk(asg, rv.disk[l], 0);
    hide *;
    HopsLeft(rv, asg, c, n, l, hops);
    ResolveStep(rv, asg, mark, l, hops);
    if i == |asg| {
      EndsAlive(rv, asg, mark, c, n, l);
    } else if rv.row >= mark[i] {
      EndsDead(rv, asg, mark, c, n, l);
    } else {
      GoesOn(rv, asg, mark, c, n, l);
      ResolvesFrom(rv, asg, mark, c, n + 1, rv.gcols + asg[i].spare, hops - 1);
    }
  }

  /** dcl_resolve under marks, from any group column: it reads on exactly through the assignments
      whose marks cover the row, and where one does not it says dead, at that disk. */
  lemma ResolveExactly(rv: RowView, asg: seq<Assign>, mark: seq<nat>, c: nat)
    requires Assigned(rv, asg) && |mark| == |asg| && c < rv.gcols
    ensures var e := ResolveFrom(rv, asg, mark, c, |asg| + 1);
      ResolvedTo(rv, asg, mark, c, e.disk, e.dead)
  {
    ResolvesFrom(rv, asg, mark, c, 0, c, |asg| + 1);
  }

  /** Raising marks keeps every live read where it is: it only turns dead reads live. */
  lemma {:induction false} LiveReadsStay(rv: RowView, asg: seq<Assign>, mark: seq<nat>, mark': seq<nat>,
                                        lcol: nat, hops: nat)
    requires InRow(rv, asg) && lcol < rv.N() && |mark| == |mark'| == |asg|
    requires forall i :: 0 <= i < |asg| && rv.row < mark[i] ==> rv.row < mark'[i]
    requires !ResolveFrom(rv, asg, mark, lcol, hops).dead
    ensures ResolveFrom(rv, asg, mark', lcol, hops) == ResolveFrom(rv, asg, mark, lcol, hops)
    decreases hops
  {
    var i := FindDisk(asg, rv.disk[lcol], 0);
    if i < |asg| {
      LiveReadsStay(rv, asg, mark, mark', rv.gcols + asg[i].spare, hops - 1);
    }
  }

  /** A read that resolves alive is served where the write map writes. */
  lemma ReadAgreesWithWrite(rv: RowView, asg: seq<Assign>, mark: seq<nat>, c: nat)
    requires InRow(rv, asg) && c < rv.N() && |mark| == |asg|
    ensures var rd := ResolveFrom(rv, asg, mark, c, |asg| + 1);
      !rd.dead ==> rd.disk == WriteEnd(rv, asg, c)
  {
    if !ResolveFrom(rv, asg, mark, c, |asg| + 1).dead {
      LiveReadsStay(rv, asg, mark, OpenMarks(rv, |asg|), c, |asg| + 1);
    }
  }
}
