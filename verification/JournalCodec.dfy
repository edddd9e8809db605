/** Journal records as bytes: what rk_sn_op_put writes rk_sn_op_get reads back, and a commit
    packs its ops into records in order (km/raid_km-snapmeta.c:311-432, 664-714, 1130-1165). */
module JournalCodec {
  import opened SnapState

  const NAME: nat := 64
  const ATTRS: nat := 1024
  const JHDR: nat := 10
  const JMAX: nat := 4070

  type Byte = b: nat | b < 256
  type Bytes = seq<Byte>

  datatype Option<T> = Some(value: T) | None

  // ---- numbers and text ----------------------------------------------------------------------

  /** the n low bytes of v, low first */
  function Le(v: nat, n: nat): (s: Bytes)
    ensures |s| == n
  {
    if n == 0 then [] else [v % 256] + Le(v / 256, n - 1)
  }

  function Value(s: Bytes): nat {
    if s == [] then 0 else s[0] + 256 * Value(s[1..])
  }

  function Range(n: nat): nat {
    if n == 0 then 1 else 256 * Range(n - 1)
  }

  lemma {:induction false} LeValue(v: nat, n: nat)
    requires v < Range(n)
    ensures Value(Le(v, n)) == v
  {
    if n > 0 {
      LeValue(v / 256, n - 1);
      assert Le(v, n)[1..] == Le(v / 256, n - 1);
    }
  }

  /** a C string: no NUL in it, one byte a character */
  predicate Plain(t: Text) {
    forall i :: 0 <= i < |t| ==> 0 < t[i] as int < 256
  }

  function Chars(t: Text): (s: Bytes)
    ensures |s| == |t|
  {
    seq(|t|, i requires 0 <= i < |t| => t[i] as int % 256)
  }

  /** the text of a byte string: to its first NUL, or all of it */
  function TextOf(s: Bytes): Text {
    if s == [] || s[0] == 0 then "" else [s[0] as char] + TextOf(s[1..])
  }

  /** a fixed buffer with the text and zeroes behind it (cut where it is too long) */
  function Field(t: Text): (s: Bytes)
    ensures |s| == NAME
  {
    if |t| < NAME then Chars(t) + seq(NAME - |t|, _ => 0) else Chars(t[..NAME - 1]) + [0]
  }

  lemma CharBack(c: char)
    requires 0 < c as int < 256
    ensures (c as int % 256) as char == c && c as int % 256 != 0
  {
  }

  lemma TextOfCons(b: Byte, rest: Bytes)
    requires b != 0
    ensures TextOf([b] + rest) == [b as char] + TextOf(rest)
  {
    assert ([b] + rest)[1..] == rest;
  }

  lemma CharsCons(t: Text)
    requires t != ""
    ensures Chars(t) == [t[0] as int % 256] + Chars(t[1..])
  {
  }

  lemma {:induction false} TextOfChars(t: Text, tail: Bytes)
    requires Plain(t) && (tail == [] || tail[0] == 0)
    ensures TextOf(Chars(t) + tail) == t
  {
    if t == "" {
      assert Chars(t) + tail == tail;
    } else {
      TextOfChars(t[1..], tail);
      hide TextOf;
      CharsCons(t);
      CharBack(t[0]);
      hide Chars;
      var b: Byte := t[0] as int % 256;
      assert Chars(t) + tail == [b] + (Chars(t[1..]) + tail);
      TextOfCons(b, Chars(t[1..]) + tail);
      assert [t[0]] + t[1..] == t;
    }
  }

  // ---- one op -----------------------------------------------------------------------------------

  /** what the fields of an op can carry */
  predicate Wire(op: Op) {
    match op
    case Redirect(L, oldP, newP) => L < Range(4) && oldP < Range(4) && newP < Range(4)
    case Create(slot, id, ctime, name, attrs) =>
      && slot < 256 && id < Range(4) && 0 <= ctime < Range(8)
      && Plain(name) && |name| < NAME && Plain(attrs) && |attrs| < ATTRS
    case Destroy(slot) => slot < 256
    case Rename(slot, name) => slot < 256 && Plain(name) && |name| < NAME
    case Set(slot, attrs) => slot < 256 && Plain(attrs) && |attrs| < ATTRS
  }

  /** rk_sn_op_size */
  function Size(op: Op): nat {
    match op
    case Redirect(_, _, _) => 1 + 12
    case Create(_, _, _, _, attrs) => 1 + 1 + 4 + 8 + NAME + 2 + |attrs|
    case Destroy(_) => 1 + 1
    case Rename(_, _) => 1 + 1 + NAME
    case Set(_, attrs) => 1 + 1 + 2 + |attrs|
  }

  /** rk_sn_op_put */
  function Put(op: Op): Bytes
    requires op.Create? ==> op.ctime >= 0
  {
    match op
    case Redirect(L, oldP, newP) => [1] + Le(L, 4) + Le(oldP, 4) + Le(newP, 4)
    case Create(slot, id, ctime, name, attrs) =>
      [2] + Le(slot, 1) + Le(id, 4) + Le(ctime, 8) + Field(name) + Le(|attrs|, 2) + Chars(attrs)
    case Destroy(slot) => [3] + Le(slot, 1)
    case Rename(slot, name) => [4] + Le(slot, 1) + Field(name)
    case Set(slot, attrs) => [5] + Le(slot, 1) + Le(|attrs|, 2) + Chars(attrs)
  }

  datatype Parsed = Parsed(op: Op, size: nat) | Malformed

  /** rk_sn_op_get at the start of what is left of a record */
  function Get(s: Bytes): (r: Parsed)
    ensures r.Parsed? ==> 0 < r.size <= |s|
  {
    if s == [] then Malformed
    else if s[0] == 1 then
      if |s| - 1 < 12 then Malformed
      else Parsed(Redirect(Value(s[1..5]), Value(s[5..9]), Value(s[9..13])), 13)
    else if s[0] == 2 then
      if |s| - 1 < 1 + 12 + NAME + 2 then Malformed
      else
        var n := Value(s[14 + NAME..16 + NAME]);
        if n >= ATTRS || |s| - 1 < 1 + 12 + NAME + 2 + n then Malformed
        else
          Parsed(Create(s[1], Value(s[2..6]), Value(s[6..14]), TextOf(s[14..13 + NAME]),
                        TextOf(s[16 + NAME..16 + NAME + n])), 16 + NAME + n)
    else if s[0] == 3 then
      if |s| - 1 < 1 then Malformed else Parsed(Destroy(s[1]), 2)
    else if s[0] == 4 then
      if |s| - 1 < 1 + NAME then Malformed else Parsed(Rename(s[1], TextOf(s[2..1 + NAME])), 2 + NAME)
    else if s[0] == 5 then
      if |s| - 1 < 3 then Malformed
      else
        var n := Value(s[2..4]);
        if n >= ATTRS || |s| - 2 < 2 + n then Malformed
        else Parsed(Set(s[1], TextOf(s[4..4 + n])), 4 + n)
    else Malformed
  }

  lemma PutSize(op: Op)
    requires op.Create? ==> op.ctime >= 0
    ensures |Put(op)| == Size(op)
  {
  }

  lemma SizeFits(op: Op)
    requires Wire(op)
    ensures 0 < Size(op) <= JMAX
  {
    hide Plain, Range;
  }

  lemma Powers()
    ensures Range(1) == 256 && Range(2) == 65536 && Range(4) == 0x1_0000_0000 && Range(8) == 0x1_0000_0000_0000_0000
  {
    assert Range(0) == 1;
    assert Range(2) == 256 * Range(1) && Range(3) == 256 * Range(2) && Range(5) == 256 * Range(4);
    assert Range(6) == 256 * Range(5) && Range(7) == 256 * Range(6);
  }

  lemma FieldText(t: Text)
    requires Plain(t) && |t| < NAME
    ensures TextOf(Field(t)[..NAME - 1]) == t
  {
    var tail: Bytes := seq(NAME - 1 - |t|, _ => 0);
    TextOfChars(t, tail);
    assert Field(t)[..NAME - 1] == Chars(t) + tail;
  }

  lemma CharsText(t: Text)
    requires Plain(t)
    ensures TextOf(Chars(t)) == t
  {
    TextOfChars(t, []);
    assert Chars(t) + [] == Chars(t);
  }

  lemma OneByte(v: nat)
    requires v < 256
    ensures Le(v, 1) == [v]
  {
    assert Le(v / 256, 0) == [];
  }

  lemma GetRedirect(L: nat, oldP: nat, newP: nat, tail: Bytes)
    requires Wire(Redirect(L, oldP, newP))
    ensures Get(Put(Redirect(L, oldP, newP)) + tail) == Parsed(Redirect(L, oldP, newP), 13)
  {
    var s := Put(Redirect(L, oldP, newP)) + tail;
    LeValue(L, 4);
    LeValue(oldP, 4);
    LeValue(newP, 4);
    hide Le, Value, Range;
    assert s[1..5] == Le(L, 4) && s[5..9] == Le(oldP, 4) && s[9..13] == Le(newP, 4);
  }

  lemma CreateSlices(a: Bytes, b: Bytes, c: Bytes, d: Bytes, e: Bytes, f: Bytes, tail: Bytes)
    requires |a| == 1 && |b| == 4 && |c| == 8 && |d| == NAME && |e| == 2
    ensures var s := [2] + a + b + c + d + e + f + tail;
      && s[1] == a[0] && s[2..6] == b && s[6..14] == c && s[14..14 + NAME] == d
      && s[14 + NAME..16 + NAME] == e && s[16 + NAME..16 + NAME + |f|] == f
  {
  }

  lemma GetCreate(slot: nat, id: nat, ctime: int, name: Text, attrs: Text, tail: Bytes)
    requires Wire(Create(slot, id, ctime, name, attrs))
    ensures Get(Put(Create(slot, id, ctime, name, attrs)) + tail) ==
      Parsed(Create(slot, id, ctime, name, attrs), 16 + NAME + |attrs|)
  {
    var s := Put(Create(slot, id, ctime, name, attrs)) + tail;
    OneByte(slot);
    Powers();
    LeValue(id, 4);
    LeValue(ctime, 8);
    LeValue(|attrs|, 2);
    FieldText(name);
    CharsText(attrs);
    hide Le, Value, Range, Field, TextOf, Chars, Plain;
    CreateSlices(Le(slot, 1), Le(id, 4), Le(ctime, 8), Field(name), Le(|attrs|, 2), Chars(attrs), tail);
    assert s[14..13 + NAME] == s[14..14 + NAME][..NAME - 1];
  }

  lemma GetRename(slot: nat, name: Text, tail: Bytes)
    requires Wire(Rename(slot, name))
    ensures Get(Put(Rename(slot, name)) + tail) == Parsed(Rename(slot, name), 2 + NAME)
  {
    var s := Put(Rename(slot, name)) + tail;
    OneByte(slot);
    FieldText(name);
    hide Le, Value, Field, TextOf, Plain;
    assert s[2..1 + NAME] == Field(name)[..NAME - 1];
  }

  lemma GetSet(slot: nat, attrs: Text, tail: Bytes)
    requires Wire(Set(slot, attrs))
    ensures Get(Put(Set(slot, attrs)) + tail) == Parsed(Set(slot, attrs), 4 + |attrs|)
  {
    var s := Put(Set(slot, attrs)) + tail;
    OneByte(slot);
    Powers();
    LeValue(|attrs|, 2);
    CharsText(attrs);
    hide Le, Value, Range, TextOf, Chars, Plain;
    assert s[2..4] == Le(|attrs|, 2);
    assert s[4..4 + |attrs|] == Chars(attrs);
  }

  /** Parsing what was put, whatever follows it, gives the op back and takes exactly its bytes. */
  lemma GetPut(op: Op, tail: Bytes)
    requires Wire(op)
    ensures Get(Put(op) + tail) == Parsed(op, Size(op))
  {
    hide Get, Put, Plain;
    match op {
      case Redirect(L, oldP, newP) => GetRedirect(L, oldP, newP, tail);
      case Create(slot, id, ctime, name, attrs) => GetCreate(slot, id, ctime, name, attrs, tail);
      case Destroy(slot) => GetDestroy(slot, tail);
      case Rename(slot, name) => GetRename(slot, name, tail);
      case Set(slot, attrs) => GetSet(slot, attrs, tail);
    }
  }

  lemma GetDestroy(slot: nat, tail: Bytes)
    requires slot < 256
    ensures Get(Put(Destroy(slot)) + tail) == Parsed(Destroy(slot), 2)
  {
    OneByte(slot);
    hide Le, Value;
  }

  // ---- a record -------------------------------------------------------------------------------------

  lemma {:induction false} TextPlain(s: Bytes)
    ensures Plain(TextOf(s)) && |TextOf(s)| <= |s|
  {
    if s != [] && s[0] != 0 {
      TextPlain(s[1..]);
    }
  }

  lemma {:induction false} ValueRange(s: Bytes)
    ensures Value(s) < Range(|s|)
  {
    if s != [] {
      ValueRange(s[1..]);
    }
  }

  lemma {:induction false} ValueBack(s: Bytes)
    ensures Le(Value(s), |s|) == s
  {
    if s != [] {
      ValueBack(s[1..]);
      assert Value(s) % 256 == s[0] && Value(s) / 256 == Value(s[1..]);
    }
  }

  /** Whatever the bytes: an op that the parser takes from them is one that could have been put,
      with a slot, numbers and texts that fit their fields; the fixed ones were put as they are. */
  lemma GetTakes(s: Bytes)
    requires Get(s).Parsed?
    ensures Wire(Get(s).op)
    ensures (Get(s).op.Redirect? || Get(s).op.Destroy?) ==> s[..Get(s).size] == Put(Get(s).op)
    ensures s[0] == match Get(s).op
                    case Redirect(_, _, _) => 1
                    case Create(_, _, _, _, _) => 2
                    case Destroy(_) => 3
                    case Rename(_, _) => 4
                    case Set(_, _) => 5
  {
    match Get(s).op {
      case Redirect(_, _, _) =>
        ValueBack(s[1..5]);
        ValueBack(s[5..9]);
        ValueBack(s[9..13]);
        ValueRange(s[1..5]);
        ValueRange(s[5..9]);
        ValueRange(s[9..13]);
        assert s[..13] == [s[0]] + s[1..5] + s[5..9] + s[9..13];
      case Create(_, _, _, _, _) =>
        ValueRange(s[2..6]);
        ValueRange(s[6..14]);
        TextPlain(s[14..13 + NAME]);
        TextPlain(s[16 + NAME..16 + NAME + Value(s[14 + NAME..16 + NAME])]);
      case Destroy(_) =>
        assert s[..2] == [s[0]] + [s[1]];
        assert Le(s[1], 1) == [s[1]];
      case Rename(_, _) => TextPlain(s[2..1 + NAME]);
      case Set(_, _) => TextPlain(s[4..4 + Value(s[2..4])]);
    }
  }

  predicate AllWire(ops: seq<Op>) {
    forall i :: 0 <= i < |ops| ==> Wire(ops[i])
  }

  function PutAll(ops: seq<Op>): Bytes
    requires AllWire(ops)
  {
    if ops == [] then [] else Put(ops[0]) + PutAll(ops[1..])
  }

  function SizeAll(ops: seq<Op>): nat {
    if ops == [] then 0 else Size(ops[0]) + SizeAll(ops[1..])
  }

  /** the ops of a record's body, as replay reads them */
  function ParseAll(s: Bytes): Option<seq<Op>> {
    if s == [] then Some([])
    else
      match Get(s)
      case Malformed => None
      case Parsed(op, size) =>
        match ParseAll(s[size..])
        case None => None
        case Some(ops) => Some([op] + ops)
  }

  lemma ParseStep(s: Bytes, op: Op, size: nat, ops: seq<Op>)
    requires Get(s) == Parsed(op, size) && size <= |s| && ParseAll(s[size..]) == Some(ops)
    ensures ParseAll(s) == Some([op] + ops)
  {
    hide Get;
    assert Get([]) == Malformed by { NothingParsed(); }
  }

  lemma NothingParsed()
    ensures Get([]) == Malformed
  {
  }

  lemma PutAllStep(ops: seq<Op>)
    requires AllWire(ops) && ops != []
    ensures Wire(ops[0]) && AllWire(ops[1..]) && PutAll(ops) == Put(ops[0]) + PutAll(ops[1..])
  {
    hide Put, Plain;
  }

  /** Replay reads the ops of a record, all of them and in order. */
  lemma {:induction false} ParsePut(ops: seq<Op>)
    requires AllWire(ops)
    ensures ParseAll(PutAll(ops)) == Some(ops) && |PutAll(ops)| == SizeAll(ops)
  {
    if ops != [] {
      hide Get, Put, Size, Wire, ParseAll, PutAll, AllWire;
      PutAllStep(ops);
      var s, tail := PutAll(ops), PutAll(ops[1..]);
      ParsePut(ops[1..]);
      GetPut(ops[0], tail);
      WireSize(ops[0]);
      assert s[Size(ops[0])..] == tail;
      ParseStep(s, ops[0], Size(ops[0]), ops[1..]);
      assert [ops[0]] + ops[1..] == ops;
    }
  }

  lemma WireSize(op: Op)
    requires Wire(op)
    ensures |Put(op)| == Size(op)
  {
    PutSize(op);
    hide Put, Size, Plain;
  }

  /** the page of record q: its number, the length of its ops, the ops */
  function RecordBytes(q: nat, ops: seq<Op>): Bytes
    requires AllWire(ops)
  {
    Le(q, 8) + Le(|PutAll(ops)|, 2) + PutAll(ops)
  }

  /** Ops fit a record exactly when its bytes and the 16 of the seal behind them fit a page. */
  lemma FitsPage(q: nat, ops: seq<Op>)
    requires AllWire(ops)
    ensures SizeAll(ops) <= JMAX <==> |RecordBytes(q, ops)| + 16 <= 4096
  {
    ParsePut(ops);
    hide Le, PutAll, ParseAll, SizeAll;
  }

  /** what replay makes of a record's page (with or without the zeroes behind it) */
  function RecordOps(page: Bytes): Option<seq<Op>> {
    if |page| < JHDR then None
    else
      var len := Value(page[8..10]);
      if len > JMAX || JHDR + len > |page| then None else ParseAll(page[JHDR..JHDR + len])
  }

  lemma RecordRoundTrip(q: nat, ops: seq<Op>, fill: Bytes)
    requires AllWire(ops) && SizeAll(ops) <= JMAX
    ensures RecordOps(RecordBytes(q, ops) + fill) == Some(ops)
  {
    var body := PutAll(ops);
    var page := RecordBytes(q, ops) + fill;
    ParsePut(ops);
    Powers();
    LeValue(|body|, 2);
    hide Le, Value, PutAll, ParseAll, Range;
    assert page[8..10] == Le(|body|, 2);
    assert page[JHDR..JHDR + |body|] == body;
  }

  // ---- packing a batch ----------------------------------------------------------------------------------

  /** an op waiting for its record; a COW whose data write failed is dropped instead */
  datatype Queued = Queued(op: Op, failed: bool)

  predicate Voided(q: Queued) {
    q.op.Redirect? && q.failed
  }

  function Kept(batch: seq<Queued>): seq<Op> {
    if batch == [] then []
    else Kept(batch[..|batch| - 1]) + if Voided(batch[|batch| - 1]) then [] else [batch[|batch| - 1].op]
  }

  /** The ops kept are those of the batch but for the COWs whose data write failed, in order. */
  lemma {:induction false} KeptAt(batch: seq<Queued>, i: nat)
    requires i < |batch|
    ensures |Kept(batch[..i])| <= |Kept(batch)| <= |batch|
    ensures !(batch[i].op.Redirect? && batch[i].failed) ==>
      |Kept(batch[..i])| < |Kept(batch)| && Kept(batch)[|Kept(batch[..i])|] == batch[i].op
    ensures |Kept(batch[..i + 1])| == |Kept(batch[..i])| + if batch[i].op.Redirect? && batch[i].failed then 0 else 1
  {
    var init := batch[..|batch| - 1];
    assert batch[..i + 1][..i] == batch[..i];
    if i < |init| {
      KeptAt(init, i);
      assert init[..i] == batch[..i];
    } else {
      assert batch[..i + 1] == batch;
      KeptFew(init);
    }
  }

  lemma {:induction false} KeptFew(batch: seq<Queued>)
    ensures |Kept(batch)| <= |batch|
  {
    if batch != [] {
      KeptFew(batch[..|batch| - 1]);
    }
  }

  function Flatten(recs: seq<seq<Op>>): seq<Op> {
    if recs == [] then [] else Flatten(recs[..|recs| - 1]) + recs[|recs| - 1]
  }

  lemma {:induction false} SizeSnoc(ops: seq<Op>, op: Op)
    ensures SizeAll(ops + [op]) == SizeAll(ops) + Size(op)
  {
    if ops == [] {
      assert [op][1..] == [];
    } else {
      SizeSnoc(ops[1..], op);
      assert (ops + [op])[1..] == ops[1..] + [op];
    }
  }

  lemma {:induction false} PutSnoc(ops: seq<Op>, op: Op)
    requires AllWire(ops) && Wire(op)
    ensures PutAll(ops + [op]) == PutAll(ops) + Put(op)
  {
    hide Put, Plain;
    if ops == [] {
      assert ops + [op] == [op] && [op][1..] == [];
      assert PutAll([op]) == Put(op) + PutAll([]);
    } else {
      PutSnoc(ops[1..], op);
      assert (ops + [op])[1..] == ops[1..] + [op];
    }
  }

  /** every record has ops and fits a page */
  predicate RecordsFit(recs: seq<seq<Op>>) {
    forall i :: 0 <= i < |recs| ==> recs[i] != [] && SizeAll(recs[i]) <= JMAX
  }

  /** no record but the last had room for the op after it */
  predicate Tight(recs: seq<seq<Op>>)
    requires RecordsFit(recs)
  {
    forall i :: 0 <= i < |recs| - 1 ==> SizeAll(recs[i]) + Size(recs[i + 1][0]) > JMAX
  }

  /** the records closed so far, as packing goes */
  predicate Packing(jhead: nat, recs: seq<seq<Op>>, pages: seq<Bytes>) {
    && |pages| == |recs| && RecordsFit(recs) && Tight(recs)
    && forall i :: 0 <= i < |recs| ==> AllWire(recs[i]) && pages[i] == RecordBytes(jhead + i, recs[i])
  }

  /** the record being filled could not have gone into the one before it */
  predicate Overflows(recs: seq<seq<Op>>, open: seq<Op>) {
    open != [] && SizeAll(open) <= JMAX && AllWire(open)
    && (recs != [] ==> SizeAll(recs[|recs| - 1]) + Size(open[0]) > JMAX)
  }

  lemma CloseTight(recs: seq<seq<Op>>, open: seq<Op>)
    requires RecordsFit(recs) && Tight(recs) && Overflows(recs, open)
    ensures RecordsFit(recs + [open]) && Tight(recs + [open])
  {
    hide Size, SizeAll, AllWire;
    var all := recs + [open];
    forall i | 0 <= i < |all| - 1 ensures SizeAll(all[i]) + Size(all[i + 1][0]) > JMAX {
    }
  }

  lemma CloseRecord(jhead: nat, recs: seq<seq<Op>>, pages: seq<Bytes>, open: seq<Op>)
    requires Packing(jhead, recs, pages) && Overflows(recs, open)
    ensures |PutAll(open)| < 0x10000
    ensures Packing(jhead, recs + [open], pages + [Le(jhead + |recs|, 8) + Le(|PutAll(open)|, 2) + PutAll(open)])
    ensures Flatten(recs + [open]) == Flatten(recs) + open
  {
    hide Put, PutAll, SizeAll, Size, Wire, Le, ParseAll;
    ParsePut(open);
    assert (recs + [open])[..|recs|] == recs;
    CloseTight(recs, open);
    hide Tight;
  }

  lemma AddOp(open: seq<Op>, op: Op)
    requires AllWire(open) && Wire(op)
    ensures op.Create? ==> op.ctime >= 0
    ensures AllWire(open + [op]) && PutAll(open + [op]) == PutAll(open) + Put(op)
    ensures SizeAll(open + [op]) == SizeAll(open) + Size(op) && 0 < Size(op) <= JMAX
  {
    SizeSnoc(open, op);
    PutSnoc(open, op);
    SizeFits(op);
    hide Size, Put, PutAll, SizeAll, Plain, Range;
  }

  /** The packing loop of rk_sn_commit_fn: the batch in order into at most JBUF full records;
      from the first op that does not fit any more it is handed back. */
  method Pack(jhead: nat, batch: seq<Queued>) returns (recs: seq<seq<Op>>, pages: seq<Bytes>, cut: nat)
    requires forall i :: 0 <= i < |batch| ==> Wire(batch[i].op)
    ensures cut <= |batch| && Flatten(recs) == Kept(batch[..cut])
    ensures |recs| <= JBUF && Packing(jhead, recs, pages)
    ensures cut < |batch| ==>
      !Voided(batch[cut]) && |recs| == JBUF && SizeAll(recs[JBUF - 1]) + Size(batch[cut].op) > JMAX
    ensures batch != [] ==> cut > 0
  {
    hide Put, PutAll, SizeAll, Size, Wire, Le, Packing;
    NothingPacked(jhead);
    recs, pages := [], [];
    var nrec, used := 0, JMAX;
    var body: Bytes := [];
    var open: seq<Op> := [];    // the ops of the record being filled
    cut := 0;
    while cut < |batch|
      invariant cut <= |batch| && nrec <= JBUF && |recs| == (if nrec == 0 then 0 else nrec - 1)
      invariant nrec > 0 ==> cut > 0
      invariant nrec == 0 ==> used == JMAX && open == []
      invariant nrec > 0 ==> used == SizeAll(open) && Overflows(recs, open)
      invariant AllWire(open) && body == PutAll(open)
      invariant Flatten(recs) + open == Kept(batch[..cut])
      invariant Packing(jhead, recs, pages)
    {
      assert batch[..cut + 1] == batch[..cut] + [batch[cut]];
      if Voided(batch[cut]) {
        cut := cut + 1;
        continue;
      }
      var op := batch[cut].op;
      var sz := Size(op);
      AddOp([], op);
      assert [] + [op] == [op];
      if used + sz > JMAX {
        if nrec == JBUF {
          break;
        }
        if nrec > 0 {
          CloseRecord(jhead, recs, pages, open);
          pages := pages + [Le(jhead + nrec - 1, 8) + Le(|body|, 2) + body];
          recs := recs + [open];
        }
        body, open, used, nrec := [], [], 0, nrec + 1;
      }
      AddOp(open, op);
      body, open, used, cut := body + Put(op), open + [op], used + sz, cut + 1;
    }
    if nrec > 0 {
      CloseRecord(jhead, recs, pages, open);
      pages := pages + [Le(jhead + nrec - 1, 8) + Le(|body|, 2) + body];
      recs := recs + [open];
    }
  }

  lemma NothingPacked(jhead: nat)
    ensures Packing(jhead, [], []) && PutAll([]) == [] && SizeAll([]) == 0
  {
  }
}
