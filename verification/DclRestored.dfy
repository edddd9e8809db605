/** From the journal block to the redirects: the assignments that a load restores are such as the
    chains of km/raid_km_dcl.h:170-297 need, so that every row resolves by them. */
module DclRestored {
  import G = DclGeometry
  import C = DclChain
  import J = DclJournal

  function Assigns(reb: seq<J.Reb>): (asg: seq<C.Assign>)
    ensures |asg| == |reb|
    ensures forall i :: 0 <= i < |asg| ==> asg[i] == C.Assign(reb[i].disk, reb[i].spare)
  {
    seq(|reb|, i requires 0 <= i < |reb| => C.Assign(reb[i].disk, reb[i].spare))
  }

  /** distinct disks of the pool, distinct spare columns */
  ghost predicate Fits(ge: G.Geom, asg: seq<C.Assign>) {
    && (forall i :: 0 <= i < |asg| ==> asg[i].disk < ge.N && asg[i].spare < ge.s)
    && (forall i, j :: 0 <= i < j < |asg| ==> asg[i].disk != asg[j].disk && asg[i].spare != asg[j].spare)
  }

  lemma RestoredFits(md: J.Array, b: J.Block, ge: G.Geom)
    requires J.Accepts(md, b) && ge.N == b.geom.pool && ge.s == b.geom.spares
    ensures Fits(ge, Assigns(J.Restore(b).reb))
  {
    J.AcceptedRestores(md, b);
    hide J.Accepts, J.Restore;
  }

  lemma FitsEndpoints(ge: G.Geom, row: nat, asg: seq<C.Assign>, c: nat, c': nat)
    requires ge.Valid() && Fits(ge, asg) && c < ge.GCols() && c' < ge.GCols() && c != c'
    ensures var rv := C.RowOf(ge, row);
      && C.Assigned(rv, asg) && C.InRow(rv, asg) && c < rv.gcols && c' < rv.gcols <= rv.N()
      && C.WriteEnd(rv, asg, c) != C.WriteEnd(rv, asg, c')
      && (forall i :: 0 <= i < |asg| ==> asg[i].disk != C.WriteEnd(rv, asg, c))
  {
    hide C.WriteEnd;
    C.PoolEndpoints(ge, row, asg, c, c');
  }

  /** In every row of the pool, by the assignments of any block the load accepts: two chunks are
      written to two disks, neither of them one that is replaced; and a read, whatever the marks, is
      served by the disk that writes go to, unless it stops at the first replaced disk of its chain
      whose mark does not cover the row. */
  lemma RestoredResolves(md: J.Array, b: J.Block, ge: G.Geom, row: nat, mark: seq<nat>, c: nat, c': nat)
    requires J.Accepts(md, b) && ge.Valid() && ge.N == b.geom.pool && ge.s == b.geom.spares
    requires c < ge.GCols() && c' < ge.GCols() && c != c' && |mark| == |J.Restore(b).reb|
    ensures var rv, asg := C.RowOf(ge, row), Assigns(J.Restore(b).reb);
      && C.Assigned(rv, asg)
      && C.WriteEnd(rv, asg, c) != C.WriteEnd(rv, asg, c')
      && (forall i :: 0 <= i < |asg| ==> asg[i].disk != C.WriteEnd(rv, asg, c))
      && var e := C.ResolveFrom(rv, asg, mark, c, |asg| + 1);
         && C.ResolvedTo(rv, asg, mark, c, e.disk, e.dead)
         && (!e.dead ==> e.disk == C.WriteEnd(rv, asg, c))
  {
    var rv, asg := C.RowOf(ge, row), Assigns(J.Restore(b).reb);
    hide *;
    RestoredFits(md, b, ge);
    FitsEndpoints(ge, row, asg, c, c');
    C.ResolveExactly(rv, asg, mark, c);
    C.ReadAgreesWithWrite(rv, asg, mark, c);
  }
}
