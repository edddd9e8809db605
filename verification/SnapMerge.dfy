/** A partial write into the row buffer, page by page (rk_merge, km/raid_km-snap.c:182-213): the
    buffer then is the old row with the write over it, wherever the write and the bio's segments
    fall on page bounds. */
module SnapMerge {
  import opened SnapCow

  const PAGE: nat := 4096

  function Least(a: nat, b: nat): nat {
    if a <= b then a else b
  }

  /** memcpy into one page */
  method CopyIn(b: array2<int>, page: nat, po: nat, data: seq<int>)
    requires page < b.Length0 && po + |data| <= b.Length1
    modifies b
    ensures forall p, q :: 0 <= p < b.Length0 && 0 <= q < b.Length1 ==>
      b[p, q] == if p == page && po <= q < po + |data| then data[q - po] else old(b[p, q])
  {
    var j := 0;
    while j < |data|
      invariant j <= |data|
      invariant forall p, q :: 0 <= p < b.Length0 && 0 <= q < b.Length1 ==>
        b[p, q] == if p == page && po <= q < po + j then data[q - po] else old(b[p, q])
    {
      b[page, po + j] := data[j];
      j := j + 1;
    }
  }

  /** bytes of one page, as positions in the row */
  lemma OnePage(pos: nat, n: nat, p: nat, q: nat)
    requires pos % PAGE + n <= PAGE && q < PAGE
    ensures pos <= p * PAGE + q < pos + n <==> p == pos / PAGE && pos % PAGE <= q < pos % PAGE + n
    ensures p == pos / PAGE ==> q - pos % PAGE == p * PAGE + q - pos
  {
  }

  lemma PageIn(n: nat, pos: nat)
    requires pos < n * PAGE
    ensures pos / PAGE < n
  {
  }

  /** a piece that stays within its page */
  method CopyPiece(b: array2<int>, pos: nat, data: seq<int>)
    requires b.Length1 == PAGE && pos + |data| <= b.Length0 * PAGE && data != [] && pos % PAGE + |data| <= PAGE
    modifies b
    ensures forall p: nat, q: nat :: p < b.Length0 && q < PAGE ==>
      var x := p * PAGE + q; b[p, q] == if pos <= x < pos + |data| then data[x - pos] else old(b[p, q])
  {
    PageIn(b.Length0, pos);
    CopyIn(b, pos / PAGE, pos % PAGE, data);
    forall p: nat, q: nat | p < b.Length0 && q < PAGE
      ensures var x := p * PAGE + q; b[p, q] == if pos <= x < pos + |data| then data[x - pos] else old(b[p, q])
    {
      OnePage(pos, |data|, p, q);
    }
  }

  /** one segment of the bio, cut where buffer pages end */
  method MergeSegment(b: array2<int>, pos: nat, seg: seq<int>)
    requires b.Length1 == PAGE && pos + |seg| <= b.Length0 * PAGE
    modifies b
    ensures forall p: nat, q: nat :: p < b.Length0 && q < PAGE ==>
      var x := p * PAGE + q; b[p, q] == if pos <= x < pos + |seg| then seg[x - pos] else old(b[p, q])
  {
    var done := 0;
    while done < |seg|
      invariant done <= |seg|
      invariant forall p: nat, q: nat :: p < b.Length0 && q < PAGE ==>
        var x := p * PAGE + q; b[p, q] == if pos <= x < pos + done then seg[x - pos] else old(b[p, q])
    {
      var po := (pos + done) % PAGE;
      var n := Least(|seg| - done, PAGE - po);
      CopyPiece(b, pos + done, seg[done..done + n]);
      done := done + n;
    }
  }

  /** the segments' bytes, one segment after the other */
  function Concat(segs: seq<seq<int>>): seq<int> {
    if segs == [] then [] else Concat(segs[..|segs| - 1]) + segs[|segs| - 1]
  }

  /** byte j of segment i stands behind the segments before it */
  lemma {:induction false} ConcatAt(segs: seq<seq<int>>, i: nat)
    requires i < |segs|
    ensures |Concat(segs[..i + 1])| == |Concat(segs[..i])| + |segs[i]| <= |Concat(segs)|
    ensures forall j :: 0 <= j < |segs[i]| ==> Concat(segs)[|Concat(segs[..i])| + j] == segs[i][j]
    decreases |segs|
  {
    var init := segs[..|segs| - 1];
    assert segs[..i + 1][..i] == segs[..i];
    if i < |init| {
      ConcatAt(init, i);
      assert init[..i] == segs[..i];
    } else {
      assert segs[..i + 1] == segs;
    }
  }

  /** The write's data over the old row, byte by byte: what a partial COW puts into its new row. */
  method Merge(b: array2<int>, segs: seq<seq<int>>, off: nat)
    requires b.Length1 == PAGE && off + |Concat(segs)| <= b.Length0 * PAGE
    modifies b
    ensures forall p: nat, q: nat :: p < b.Length0 && q < PAGE ==>
      var x := p * PAGE + q; b[p, q] == if off <= x < off + |Concat(segs)| then Concat(segs)[x - off] else old(b[p, q])
  {
    hide Concat;
    var pos, i := off, 0;
    NoSegments(segs);
    while i < |segs|
      invariant i <= |segs| && pos == off + |Concat(segs[..i])| && |Concat(segs[..i])| <= |Concat(segs)|
      invariant forall p: nat, q: nat :: p < b.Length0 && q < PAGE ==>
        var x := p * PAGE + q; b[p, q] == if off <= x < pos then Concat(segs)[x - off] else old(b[p, q])
    {
      ConcatAt(segs, i);
      MergeSegment(b, pos, segs[i]);
      pos := pos + |segs[i]|;
      i := i + 1;
    }
    assert segs[..i] == segs;
  }

  lemma NoSegments(segs: seq<seq<int>>)
    ensures Concat(segs[..0]) == []
  {
  }

  function Zeroes(n: nat): (s: seq<int>)
    ensures |s| == n && forall j :: 0 <= j < n ==> s[j] == 0
  {
    seq(n, _ => 0)
  }

  /** WRITE_ZEROES has no data: its range becomes zeroes */
  method MergeZeroes(b: array2<int>, off: nat, size: nat)
    requires b.Length1 == PAGE && off + size <= b.Length0 * PAGE
    modifies b
    ensures forall p: nat, q: nat :: p < b.Length0 && q < PAGE ==>
      var x := p * PAGE + q; b[p, q] == if off <= x < off + size then 0 else old(b[p, q])
  {
    var pos, end := off, off + size;
    while pos < end
      invariant off <= pos <= end
      invariant forall p: nat, q: nat :: p < b.Length0 && q < PAGE ==>
        var x := p * PAGE + q; b[p, q] == if off <= x < pos then 0 else old(b[p, q])
    {
      var po := pos % PAGE;
      var n := Least(end - pos, PAGE - po);
      CopyPiece(b, pos, Zeroes(n));
      pos := pos + n;
    }
  }

  /** A buffer that holds the old row and is merged into holds what the COW machine says the new
      row is. */
  lemma MergedIsOverlay(was: Row, off: nat, data: seq<int>, now: Row)
    requires off + |data| <= |was| == |now|
    requires forall x :: 0 <= x < |was| ==> now[x] == if off <= x < off + |data| then data[x - off] else was[x]
    ensures now == Overlay(was, Write(0, 0, off, data))
  {
    OverlayAt(was, Write(0, 0, off, data));
  }
}
