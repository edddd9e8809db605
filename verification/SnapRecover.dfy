/** A load finds the newest complete checkpoint and replays every record some member still
    has after it: the state is the checkpoint's with a prefix of the later records applied,
    and the prefix holds every acknowledged one (rk_sn_load, km/raid_km-snapmeta.c:1185-1229). */
module SnapRecover {
  import opened SnapState
  import opened SnapDerive
  import opened SnapRegion
  import opened SnapLoad
  import opened SnapStored
  import opened SnapReplay

  /** the history as it is once record j was found to be the first missing one */
  function Cut(per: Per, j: nat): Per
    requires j <= |per.hist|
  {
    per.(hist := per.hist[..j])
  }

  ghost predicate Recovered(per: Per, core: Core)
    requires RingFits(per) && RecsOk(per.base, per.hist[per.jtail..])
  {
    && per.acked <= core.jhead <= |per.hist|
    && RecsOk(per.base, per.hist[per.jtail..core.jhead])
    && core.st == ApplyRecs(per.base, per.hist[per.jtail..core.jhead]) && AtRest(core.st)
    && core.st.R == per.base.R && core.st.O == per.base.O
    && DirtyCovers(per.base.rmap, Live(core.st, core.rdirty))
    && core.pct == per.pct && core.pmap == per.pmap && core.ckpt == per.ckpt && core.jtail == per.jtail
    && core.scrub
  }

  // ---- the checkpoint's own maps, before any record ----------------------------------------

  lemma BaseDerived(per: Per)
    requires PerOk(per)
    ensures RmapNormal(per.base) && ChainOrdered(per.base.snaps, per.base.nextId) && PmapFits(per)
    ensures Derive(per.base.R, per.base.O, per.base.rmap, BareChain(per.base.snaps), per.base.nextId) == Ok(per.base)
  {
    CoherentParts(per.base);
    DeriveRebuilds(per.base);
    assert Settled(per.base) == per.base;
  }

  lemma LoadsChain(per: Per, imgs: seq<Image>)
    requires ChainOrdered(per.base.snaps, per.base.nextId) && AllStored(per, imgs) && imgs != [] && per.ckpt > 0
    ensures LoadTable(imgs, per.ckpt, TBL_PAGES).Ok?
    ensures ChainOf(LoadTable(imgs, per.ckpt, TBL_PAGES).value, SLOTS) == BareChain(per.base.snaps)
  {
    hide AllStored, LoadTable;
    LoadsTable(per, imgs, TBL_PAGES);
    assert Entries(per.base.snaps, TBL_PER_PAGE * TBL_PAGES) == Entries(per.base.snaps, SLOTS);
    ChainRestored(per.base.snaps, per.base.nextId);
  }

  lemma LoadsPages(per: Per, imgs: seq<Image>)
    requires RmapNormal(per.base) && PmapFits(per) && AllStored(per, imgs) && imgs != [] && per.ckpt > 0
    ensures var N := RmapPages(per.base.R);
      LoadPmap(imgs, per.ckpt, PmapPages(N)) == Ok(per.pmap) && |per.pmap| == N
      && LoadRmap(imgs, per.base.R, per.ckpt, per.pmap, N) == Ok(per.base.rmap)
  {
    hide AllStored, RmapNormal, LoadPmap, LoadRmap, RmapPages;
    var N := RmapPages(per.base.R);
    LoadsPmap(per, imgs, PmapPages(N));
    PagesCover(N, PMAP_PER_PAGE);
    assert per.pmap[..|per.pmap|] == per.pmap;
    LoadsRmap(per, imgs, N);
    RowsBelowAll(per.base);
  }

  lemma LoadsBase(per: Per, imgs: seq<Image>, h: Header)
    requires PerOk(per) && AllStored(per, imgs) && imgs != []
    requires h.ckpt == per.ckpt && h.nextId == per.base.nextId
    ensures LoadMaps(imgs, per.base.R, per.base.O, h) == Finish(imgs, h, per.base, per.pmap)
  {
    BaseDerived(per);
    if per.ckpt == 0 {
      assert per.base.rmap == map[] && BareChain(per.base.snaps) == [];
      assert per.pmap == seq(RmapPages(per.base.R), _ => Untouched);
      hide PerOk, AllStored, Derive, Finish, RmapPages;
    } else {
      hide PerOk, AllStored, Derive, Finish;
      LoadsChain(per, imgs);
      LoadsPages(per, imgs);
      hide LoadTable, LoadPmap, LoadRmap, RmapPages, PmapPages, ChainOf;
    }
  }

  lemma PagesCover(n: nat, per: nat)
    requires per > 0
    ensures n <= per * PagesFor(n, per)
  {
  }

  /** Loading from any members whose regions hold the history, one of them the newest
      header, succeeds, loses nothing acknowledged and invents nothing. */
  lemma LoadRecovers(per: Per, imgs: seq<Image>, k: nat)
    requires PerOk(per) && AllStored(per, imgs) && k < |imgs| && HasHdr(per, imgs[k])
    ensures Load(per.base.R, imgs).Ok?
    ensures Recovered(per, Load(per.base.R, imgs).value)
    ensures NoRecord(imgs, Load(per.base.R, imgs).value.jhead)
  {
    LoadsHeader(per, imgs, k);
    var h := LoadHeader(imgs).value;
    CoherentParts(per.base);
    LoadsBase(per, imgs, h);
    assert per.hist[per.jtail..per.jtail] == [];
    assert DirtyCovers(per.base.rmap, Live(per.base, {}));
    hide LoadHeader, LoadMaps, AllStored, HasHdr, AtRest, DirtyCovers, ReplayFrom, NoRecord, RmapPages;
    Replays(per, imgs, Live(per.base, {}), per.jtail);
  }

  /** With the missing record known missing everywhere, the regions hold the shorter history. */
  lemma CutStored(per: Per, imgs: seq<Image>, j: nat)
    requires RingFits(per) && AllStored(per, imgs) && per.acked <= j <= |per.hist| && NoRecord(imgs, j)
    ensures RingFits(Cut(per, j)) && AllStored(Cut(per, j), imgs)
  {
    var cut := Cut(per, j);
    forall k | 0 <= k < |imgs| ensures Stored(cut, imgs[k]) {
      assert Stored(per, imgs[k]);
      CutRing(per, imgs, j, k);
      hide RingImg, NoRecord;
    }
  }

  lemma CutRing(per: Per, imgs: seq<Image>, j: nat, k: nat)
    requires RingFits(per) && per.acked <= j <= |per.hist| && NoRecord(imgs, j)
    requires k < |imgs| && RingImg(per, imgs[k])
    ensures RingImg(Cut(per, j), imgs[k])
  {
    forall idx | 0 <= idx < JPAGES ensures RecordOk(Cut(per, j), idx, Rd(imgs[k], JrnlAt(idx))) {
      assert RecordOk(per, idx, Rd(imgs[k], JrnlAt(idx)));
      var pg := Rd(imgs[k], JrnlAt(idx));
      if pg.Good? && pg.gen == j {
        assert Offers(imgs[k], JrnlAt(j % JPAGES), Exactly(j), j, pg.body);
        assert false;
      }
    }
  }
}
