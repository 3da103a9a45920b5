/** Reading a read/write set back from its bytes, in both directions: the decoder
    accepts exactly the encodings of well-formed read/write sets, and gives back what
    was encoded. */
module RwSetRoundTrip {
  import opened Messages
  import opened RwSetFormat
  import Bits

  // ----- Numbers -------------------------------------------------------------------

  function Power256(n: nat): nat {
    if n == 0 then 1 else 256 * Power256(n - 1)
  }

  /** `v` as `width` big-endian bytes. */
  function Bytes(v: nat, width: nat): (b: seq<Byte>)
    ensures |b| == width
  {
    if width == 0 then [] else Bytes(v / 256, width - 1) + [v % 256]
  }

  lemma {:induction false} ReadBytes(v: nat, width: nat)
    requires v < Power256(width)
    ensures BigEndian(Bytes(v, width)) == v
  {
    if width > 0 {
      ReadBytes(v / 256, width - 1);
      assert Bytes(v, width)[..width - 1] == Bytes(v / 256, width - 1);
    }
  }

  lemma {:induction false} BytesRead(b: seq<Byte>)
    ensures Bytes(BigEndian(b), |b|) == b && BigEndian(b) < Power256(|b|)
  {
    if b != [] {
      var front, last := b[..|b| - 1], b[|b| - 1];
      BytesRead(front);
      assert (256 * BigEndian(front) + last) / 256 == BigEndian(front);
      assert b == front + [last];
    }
  }

  // ----- Tuples and pages --------------------------------------------------------------

  predicate Word(v: nat, width: nat) {
    v < Power256(width)
  }

  predicate TupleFits(t: Tuple) {
    Word(t.blocknum, 4) && Word(t.offset, 2)
  }

  function EncodeTuples(ts: seq<Tuple>): seq<Byte> {
    if ts == [] then [] else Bytes(ts[0].blocknum, 4) + Bytes(ts[0].offset, 2) + EncodeTuples(ts[1..])
  }

  function EncodePages(ps: seq<nat>): seq<Byte> {
    if ps == [] then [] else Bytes(ps[0], 4) + EncodePages(ps[1..])
  }

  lemma {:induction false} TuplesSize(ts: seq<Tuple>)
    ensures |EncodeTuples(ts)| == 6 * |ts|
  {
    if ts != [] {
      TuplesSize(ts[1..]);
    }
  }

  lemma {:induction false} PagesSize(ps: seq<nat>)
    ensures |EncodePages(ps)| == 4 * |ps|
  {
    if ps != [] {
      PagesSize(ps[1..]);
    }
  }

  lemma {:induction false} ReadTuples(ts: seq<Tuple>, rest: seq<Byte>)
    requires forall t :: t in ts ==> TupleFits(t)
    ensures ParseTuples(|ts|, EncodeTuples(ts) + rest) == Got(ts, rest)
  {
    var b := EncodeTuples(ts) + rest;
    if ts == [] {
      assert b == rest;
    } else {
      assert ts[0] in ts;
      var head := Bytes(ts[0].blocknum, 4) + Bytes(ts[0].offset, 2);
      assert b == head + (EncodeTuples(ts[1..]) + rest);
      assert b[..4] == Bytes(ts[0].blocknum, 4) && b[4..6] == Bytes(ts[0].offset, 2);
      assert b[6..] == EncodeTuples(ts[1..]) + rest;
      ReadBytes(ts[0].blocknum, 4);
      ReadBytes(ts[0].offset, 2);
      ReadTuples(ts[1..], rest);
      assert ts == [ts[0]] + ts[1..];
    }
  }

  lemma {:induction false} ReadPages(ps: seq<nat>, rest: seq<Byte>)
    requires forall p :: p in ps ==> Word(p, 4)
    ensures ParsePages(|ps|, EncodePages(ps) + rest) == Got(ps, rest)
  {
    var b := EncodePages(ps) + rest;
    if ps == [] {
      assert b == rest;
    } else {
      assert ps[0] in ps;
      assert b == Bytes(ps[0], 4) + (EncodePages(ps[1..]) + rest);
      assert b[..4] == Bytes(ps[0], 4) && b[4..] == EncodePages(ps[1..]) + rest;
      ReadBytes(ps[0], 4);
      ReadPages(ps[1..], rest);
      assert ps == [ps[0]] + ps[1..];
    }
  }

  lemma TupleRead(b: seq<Byte>)
    requires |b| >= 6
    ensures var t := ParseTuple(b).value;
            TupleFits(t) && b == Bytes(t.blocknum, 4) + Bytes(t.offset, 2) + b[6..]
  {
    BytesRead(b[..4]);
    BytesRead(b[4..6]);
    assert b == b[..4] + b[4..6] + b[6..];
  }

  lemma {:induction false} TuplesRead(n: nat, b: seq<Byte>)
    requires ParseTuples(n, b).Got?
    ensures var Got(ts, rest) := ParseTuples(n, b);
            |ts| == n && (forall t :: t in ts ==> TupleFits(t)) && b == EncodeTuples(ts) + rest
  {
    if n == 0 {
      assert b == EncodeTuples([]) + b;
    } else {
      var Got(ts', rest) := ParseTuples(n - 1, b[6..]);
      var t := ParseTuple(b).value;
      TuplesRead(n - 1, b[6..]);
      TupleRead(b);
      assert ([t] + ts')[1..] == ts';
      assert b == Bytes(t.blocknum, 4) + Bytes(t.offset, 2) + EncodeTuples(ts') + rest;
    }
  }

  lemma {:induction false} PagesRead(n: nat, b: seq<Byte>)
    requires ParsePages(n, b).Got?
    ensures var Got(ps, rest) := ParsePages(n, b);
            |ps| == n && (forall p :: p in ps ==> Word(p, 4)) && b == EncodePages(ps) + rest
  {
    if n == 0 {
      assert b == EncodePages([]) + b;
    } else {
      var Got(ps, rest) := ParsePages(n, b);
      PagesRead(n - 1, b[4..]);
      BytesRead(b[..4]);
      assert ps[1..] == ParsePages(n - 1, b[4..]).value;
      assert b == b[..4] + b[4..];
    }
  }

  // ----- Relations ---------------------------------------------------------------------

  /** The stored counts equal the list lengths, and every number fits its field. */
  predicate RelationFits(r: Relation) {
    && Word(r.oid, 4) && Word(r.region, 1) && Word(r.csn, 8)
    && match r
       case Table(_, _, _, _, n, ts) => n == |ts| && Word(n, 4) && forall t :: t in ts ==> TupleFits(t)
       case Index(_, _, _, n, ps) => n == |ps| && Word(n, 4) && forall p :: p in ps ==> Word(p, 4)
  }

  /** A table is a scan if its scan byte is not 0; an index ignores that byte. */
  predicate ScanFits(r: Relation, scan: Byte) {
    r.Table? ==> r.isTableScan == (scan != 0)
  }

  function EncodeFixed(f: Fixed): (b: seq<Byte>)
    ensures |b| == 18
  {
    Bytes(f.oid, 4) + Bytes(f.region, 1) + Bytes(f.csn, 8) + Bytes(f.scan, 1) + Bytes(f.nItems, 4)
  }

  predicate FixedFits(f: Fixed) {
    Word(f.oid, 4) && Word(f.region, 1) && Word(f.csn, 8) && Word(f.scan, 1) && Word(f.nItems, 4)
  }

  function Count(r: Relation): nat {
    match r
    case Table(_, _, _, _, n, _) => n
    case Index(_, _, _, n, _) => n
  }

  function EncodeItems(r: Relation): seq<Byte> {
    match r
    case Table(_, _, _, _, _, ts) => EncodeTuples(ts)
    case Index(_, _, _, _, ps) => EncodePages(ps)
  }

  function Tag(r: Relation): Byte {
    if r.Table? then TABLE_TAG else INDEX_TAG
  }

  function EncodeRelation(r: Relation, scan: Byte): seq<Byte> {
    [Tag(r)] + EncodeFixed(Fixed(r.oid, r.region, r.csn, scan, Count(r))) + EncodeItems(r)
  }

  /** Bytes a relation takes. */
  function RelationSize(r: Relation): nat {
    match r
    case Table(_, _, _, _, _, ts) => 19 + 6 * |ts|
    case Index(_, _, _, _, ps) => 19 + 4 * |ps|
  }

  lemma RelationTakes(r: Relation, scan: Byte)
    ensures |EncodeRelation(r, scan)| == RelationSize(r)
  {
    match r
    case Table(_, _, _, _, _, ts) => TuplesSize(ts);
    case Index(_, _, _, _, ps) => PagesSize(ps);
  }

  lemma FixedSlices(f: Fixed, rest: seq<Byte>)
    ensures var b := EncodeFixed(f) + rest;
            && b[..4] == Bytes(f.oid, 4) && b[4..5] == Bytes(f.region, 1) && b[5..13] == Bytes(f.csn, 8)
            && b[13..14] == Bytes(f.scan, 1) && b[14..18] == Bytes(f.nItems, 4) && b[18..] == rest
  {
  }

  lemma ReadFixed(f: Fixed, rest: seq<Byte>)
    requires FixedFits(f)
    ensures ParseFixed(EncodeFixed(f) + rest) == Got(f, rest)
  {
    FixedSlices(f, rest);
    ReadBytes(f.oid, 4);
    ReadBytes(f.region, 1);
    ReadBytes(f.csn, 8);
    ReadBytes(f.scan, 1);
    ReadBytes(f.nItems, 4);
  }

  lemma FixedRead(b: seq<Byte>)
    requires ParseFixed(b).Got?
    ensures FixedFits(ParseFixed(b).value) && b == EncodeFixed(ParseFixed(b).value) + ParseFixed(b).rest
  {
    BytesRead(b[..4]);
    BytesRead(b[4..5]);
    BytesRead(b[5..13]);
    BytesRead(b[13..14]);
    BytesRead(b[14..18]);
    assert b == b[..4] + b[4..5] + b[5..13] + b[13..14] + b[14..18] + b[18..];
  }

  lemma ReadRelation(r: Relation, scan: Byte, rest: seq<Byte>)
    requires RelationFits(r) && ScanFits(r, scan)
    ensures ParseRelation(EncodeRelation(r, scan) + rest) == Got(r, rest)
  {
    var f := Fixed(r.oid, r.region, r.csn, scan, Count(r));
    var b := EncodeRelation(r, scan) + rest;
    assert b[0] == Tag(r) && b[1..] == EncodeFixed(f) + (EncodeItems(r) + rest);
    assert Power256(1) == 256;
    ReadFixed(f, EncodeItems(r) + rest);
    match r
    case Table(_, _, _, _, _, ts) => ReadTuples(ts, rest);
    case Index(_, _, _, _, ps) => ReadPages(ps, rest);
  }

  lemma RelationRead(b: seq<Byte>) returns (scan: Byte)
    requires ParseRelation(b).Got?
    ensures var Got(r, rest) := ParseRelation(b);
            RelationFits(r) && ScanFits(r, scan) && b == EncodeRelation(r, scan) + rest
  {
    var Got(f, items) := ParseFixed(b[1..]);
    FixedRead(b[1..]);
    assert Power256(1) == 256;
    scan := f.scan;
    if b[0] == INDEX_TAG {
      PagesRead(f.nItems, items);
    } else {
      TuplesRead(f.nItems, items);
    }
    var Got(r, rest) := ParseRelation(b);
    Reassembled(b, EncodeFixed(f), items, EncodeItems(r), rest);
  }

  /** Putting a relation's bytes back together. */
  lemma Reassembled(b: seq<Byte>, fixed: seq<Byte>, items: seq<Byte>, list: seq<Byte>, rest: seq<Byte>)
    requires b != [] && b[1..] == fixed + items && items == list + rest
    ensures b == [b[0]] + fixed + list + rest
  {
    assert b == [b[0]] + b[1..];
  }

  // ----- The relations section ------------------------------------------------------------

  /** Relations, each with the scan byte it is written with. */
  function EncodeSection(rs: seq<Relation>, scans: seq<Byte>): seq<Byte>
    requires |rs| == |scans|
  {
    if rs == [] then [] else EncodeRelation(rs[0], scans[0]) + EncodeSection(rs[1..], scans[1..])
  }

  predicate SectionFits(rs: seq<Relation>, scans: seq<Byte>) {
    && |rs| == |scans|
    && forall i :: 0 <= i < |rs| ==> RelationFits(rs[i]) && ScanFits(rs[i], scans[i])
  }

  function SectionSize(rs: seq<Relation>): nat {
    if rs == [] then 0 else RelationSize(rs[0]) + SectionSize(rs[1..])
  }

  lemma {:induction false} SectionTakes(rs: seq<Relation>, scans: seq<Byte>)
    requires |rs| == |scans|
    ensures |EncodeSection(rs, scans)| == SectionSize(rs) >= 19 * |rs|
  {
    if rs != [] {
      RelationTakes(rs[0], scans[0]);
      SectionTakes(rs[1..], scans[1..]);
    }
  }

  lemma {:induction false} ReadSection(rs: seq<Relation>, scans: seq<Byte>)
    requires SectionFits(rs, scans)
    ensures ParseSection(EncodeSection(rs, scans)) == Some(rs)
  {
    if rs != [] {
      var rest := EncodeSection(rs[1..], scans[1..]);
      ReadRelation(rs[0], scans[0], rest);
      ReadSection(rs[1..], scans[1..]);
      assert rs == [rs[0]] + rs[1..];
    }
  }

  lemma {:induction false} SectionRead(b: seq<Byte>) returns (scans: seq<Byte>)
    requires ParseSection(b).Some?
    ensures SectionFits(ParseSection(b).value, scans) && b == EncodeSection(ParseSection(b).value, scans)
    decreases |b|
  {
    if b == [] {
      scans := [];
    } else {
      var Got(r, rest) := ParseRelation(b);
      RelationShrinks(b);
      var scan := RelationRead(b);
      var scans' := SectionRead(rest);
      scans := [scan] + scans';
      assert ParseSection(b).value[1..] == ParseSection(rest).value;
    }
  }

  lemma AllFit(rs: seq<Relation>, scans: seq<Byte>)
    requires SectionFits(rs, scans)
    ensures forall r :: r in rs ==> RelationFits(r)
  {
  }

  /** The bytes of a section are accounted for: a section that decodes is exactly as
      long as its relations say, so it cannot hold 2^32 of them and the comparison of
      their number as a `u32` loses nothing. */
  lemma SectionAccounting(section: seq<Byte>, nRelations: nat)
    requires |section| < Bits.U32_LIMIT && DecodeSection(section, nRelations).Some?
    ensures var rs := DecodeSection(section, nRelations).value;
            |section| == SectionSize(rs) && nRelations == |rs| && forall r :: r in rs ==> RelationFits(r)
  {
    var rs := ParseSection(section).value;
    var scans := SectionRead(section);
    SectionTakes(rs, scans);
    AllFit(rs, scans);
    Bits.DivModUnique(|rs|, Bits.U32_LIMIT, 0, |rs|);
  }

  // ----- The region bitmap -----------------------------------------------------------------

  /** The word in which exactly the bits of `s` below `k` are set. */
  function Bitmap(s: set<NodeId>, k: nat): nat {
    if k == 0 then 0 else Bitmap(s, k - 1) + (if k - 1 in s then Bits.Pow2(k - 1) else 0)
  }

  lemma {:induction false} BitmapBound(s: set<NodeId>, k: nat)
    ensures Bitmap(s, k) < Bits.Pow2(k)
  {
    if k > 0 {
      BitmapBound(s, k - 1);
    }
  }

  lemma LowBits(n: nat, k: nat)
    ensures n % Bits.Pow2(k + 1) == n % Bits.Pow2(k) + (if Bits.Bit(n, k) then Bits.Pow2(k) else 0)
  {
    var m, q := Bits.Pow2(k), n / Bits.Pow2(k);
    Bits.BitIsParity(n, k);
    SplitMod(n, m, q);
  }

  lemma SplitMod(n: nat, m: nat, q: nat)
    requires m > 0 && q == n / m
    ensures n % (2 * m) == n % m + (q % 2) * m
  {
    var h := q / 2;
    assert n == m * q + n % m;
    assert m * q == m * (2 * h + q % 2) == (2 * m) * h + m * (q % 2);
    assert 0 <= m * (q % 2) <= m;
    Bits.DivModUnique(n, 2 * m, h, n % m + (q % 2) * m);
  }

  lemma {:induction false} RegionsAreBits(n: nat, k: nat)
    requires k <= 64
    ensures Bitmap(Regions(n), k) == n % Bits.Pow2(k)
  {
    if k > 0 {
      RegionsAreBits(n, k - 1);
      LowBits(n, k - 1);
    }
  }

  lemma {:induction false} BitmapInjective(a: set<NodeId>, b: set<NodeId>, k: nat)
    requires Bitmap(a, k) == Bitmap(b, k)
    ensures forall i :: 0 <= i < k ==> (i in a <==> i in b)
  {
    if k > 0 {
      BitmapBound(a, k - 1);
      BitmapBound(b, k - 1);
      BitmapInjective(a, b, k - 1);
    }
  }

  /** The header loop inverts the bitmap: a 64-bit word and its set of regions
      determine each other. */
  lemma RegionsInvertBitmap(s: set<NodeId>)
    requires forall i :: i in s ==> i < 64
    ensures Bitmap(s, 64) < Bits.Pow2(64) && Regions(Bitmap(s, 64)) == s
  {
    var n := Bitmap(s, 64);
    BitmapBound(s, 64);
    RegionsAreBits(n, 64);
    Bits.DivModUnique(n, Bits.Pow2(64), 0, n);
    BitmapInjective(Regions(n), s, 64);
  }

  lemma BitmapOfRegions(n: nat)
    requires n < Bits.Pow2(64)
    ensures Bitmap(Regions(n), 64) == n
  {
    RegionsAreBits(n, 64);
    Bits.DivModUnique(n, Bits.Pow2(64), 0, n);
  }

  // ----- Whole read/write sets ---------------------------------------------------------------

  datatype RwSet = RwSet(dbid: nat, participants: set<NodeId>, relations: seq<Relation>)

  /** What a sender writes; `trailing` bytes after the relations are not looked at. */
  function Encode(x: RwSet, scans: seq<Byte>, trailing: seq<Byte>): seq<Byte>
    requires |x.relations| == |scans|
  {
    var section := EncodeSection(x.relations, scans);
    Bytes(x.dbid, 4) + Bytes(Bitmap(x.participants, 64), 8) + Bytes(|section|, 4) + Bytes(|x.relations|, 4)
    + section + trailing
  }

  predicate RwSetFits(x: RwSet, scans: seq<Byte>) {
    && Word(x.dbid, 4)
    && (forall i :: i in x.participants ==> i < 64)
    && SectionFits(x.relations, scans)
    && Word(SectionSize(x.relations), 4)
  }

  lemma WordsArePowers()
    ensures Power256(4) == Bits.U32_LIMIT && Power256(8) == Bits.Pow2(64)
  {
    assert Power256(4) == 0x1_0000_0000;
    assert Bits.Pow2(8) == 256;
    Bits.Pow2Add(8, 8);
    Bits.Pow2Add(16, 16);
    Bits.Pow2Add(32, 32);
    assert Power256(8) == 256 * (256 * (256 * (256 * Power256(4))));
  }

  lemma HeadSlices(a: seq<Byte>, b: seq<Byte>, c: seq<Byte>, d: seq<Byte>, rest: seq<Byte>)
    requires |a| == 4 && |b| == 8 && |c| == 4 && |d| == 4
    ensures var data := a + b + c + d + rest;
            data[..4] == a && data[4..12] == b && data[12..16] == c && data[16..20] == d && data[20..] == rest
  {
  }

  lemma HeadOf(a: seq<Byte>, b: seq<Byte>, c: seq<Byte>, d: seq<Byte>, rest: seq<Byte>)
    requires |a| == 4 && |b| == 8 && |c| == 4 && |d| == 4 && BigEndian(c) <= |rest|
    ensures DecodeHead(a + b + c + d + rest) ==
            Some(Head(BigEndian(a), Regions(BigEndian(b)), BigEndian(c), BigEndian(d), rest))
  {
    HeadSlices(a, b, c, d, rest);
  }

  /** Decoding the header gives back what was encoded, and delimits the section. */
  lemma HeadRoundTrip(x: RwSet, scans: seq<Byte>, trailing: seq<Byte>)
    requires RwSetFits(x, scans)
    ensures DecodeHead(Encode(x, scans, trailing)) ==
            Some(Head(x.dbid, x.participants, SectionSize(x.relations), |x.relations|,
                      EncodeSection(x.relations, scans) + trailing))
  {
    var section := EncodeSection(x.relations, scans);
    var bitmap := Bitmap(x.participants, 64);
    WordsArePowers();
    SectionTakes(x.relations, scans);
    RegionsInvertBitmap(x.participants);
    ReadBytes(x.dbid, 4);
    ReadBytes(bitmap, 8);
    ReadBytes(|section|, 4);
    ReadBytes(|x.relations|, 4);
    HeadOf(Bytes(x.dbid, 4), Bytes(bitmap, 8), Bytes(|section|, 4), Bytes(|x.relations|, 4), section + trailing);
    EncodeSplits(x, scans, trailing);
  }

  lemma EncodeSplits(x: RwSet, scans: seq<Byte>, trailing: seq<Byte>)
    requires |x.relations| == |scans|
    ensures var section := EncodeSection(x.relations, scans);
            Encode(x, scans, trailing) ==
            Bytes(x.dbid, 4) + Bytes(Bitmap(x.participants, 64), 8) + Bytes(|section|, 4) + Bytes(|x.relations|, 4)
            + (section + trailing)
  {
  }

  /** What the decoder reads from a buffer altogether, where its section is complete. */
  function DecodeAll(data: seq<Byte>): Option<RwSet> {
    match DecodeHead(data)
    case None => None
    case Some(h) =>
      if |h.remainder| < h.relationsLen then None
      else match DecodeSection(h.remainder[..h.relationsLen], h.nRelations)
        case None => None
        case Some(rs) => Some(RwSet(h.dbid, h.participants, rs))
  }

  /** Every read/write set is read back from its encoding. */
  lemma RoundTrip(x: RwSet, scans: seq<Byte>, trailing: seq<Byte>)
    requires RwSetFits(x, scans)
    ensures DecodeAll(Encode(x, scans, trailing)) == Some(x)
  {
    var section := EncodeSection(x.relations, scans);
    HeadRoundTrip(x, scans, trailing);
    SectionTakes(x.relations, scans);
    ReadSection(x.relations, scans);
    CountFits(x, scans);
    assert (section + trailing)[..SectionSize(x.relations)] == section;
  }

  lemma CountFits(x: RwSet, scans: seq<Byte>)
    requires RwSetFits(x, scans)
    ensures |x.relations| % Bits.U32_LIMIT == |x.relations|
  {
    WordsArePowers();
    SectionTakes(x.relations, scans);
    Bits.DivModUnique(|x.relations|, Bits.U32_LIMIT, 0, |x.relations|);
  }

  /** Nothing else is accepted: what decodes is the encoding of the result. */
  lemma OnlyEncodings(data: seq<Byte>) returns (scans: seq<Byte>, trailing: seq<Byte>)
    requires DecodeAll(data).Some?
    ensures RwSetFits(DecodeAll(data).value, scans)
    ensures data == Encode(DecodeAll(data).value, scans, trailing)
  {
    var h := DecodeHead(data).value;
    var section := h.remainder[..h.relationsLen];
    trailing := h.remainder[h.relationsLen..];
    scans := SectionRead(section);
    SectionShort(data);
    SectionAccounting(section, h.nRelations);
    WholeFits(data, h, section, scans, trailing);
  }

  lemma SectionShort(data: seq<Byte>)
    requires DecodeHead(data).Some?
    ensures DecodeHead(data).value.relationsLen < Bits.U32_LIMIT
  {
    HeaderWords(data);
  }

  lemma HeaderWords(data: seq<Byte>)
    requires |data| >= 20
    ensures Bytes(BigEndian(data[..4]), 4) == data[..4] && Word(BigEndian(data[..4]), 4)
    ensures Bytes(BigEndian(data[4..12]), 8) == data[4..12]
    ensures Bytes(BigEndian(data[12..16]), 4) == data[12..16] && BigEndian(data[12..16]) < Bits.U32_LIMIT
    ensures Bytes(BigEndian(data[16..20]), 4) == data[16..20]
    ensures Bitmap(Regions(BigEndian(data[4..12])), 64) == BigEndian(data[4..12])
  {
    WordsArePowers();
    BytesRead(data[..4]);
    BytesRead(data[4..12]);
    BytesRead(data[12..16]);
    BytesRead(data[16..20]);
    BitmapOfRegions(BigEndian(data[4..12]));
  }

  lemma WholeFits(data: seq<Byte>, h: Head, section: seq<Byte>, scans: seq<Byte>, trailing: seq<Byte>)
    requires DecodeHead(data) == Some(h) && ParseSection(section).Some?
    requires h.remainder == section + trailing && |section| == h.relationsLen < Bits.U32_LIMIT
    requires var rs := ParseSection(section).value;
             SectionFits(rs, scans) && section == EncodeSection(rs, scans) && |rs| == h.nRelations
    ensures var x := RwSet(h.dbid, h.participants, ParseSection(section).value);
            RwSetFits(x, scans) && data == Encode(x, scans, trailing)
  {
    var x := RwSet(h.dbid, h.participants, ParseSection(section).value);
    HeaderWords(data);
    WordsArePowers();
    SectionTakes(x.relations, scans);
    EncodeSplits(x, scans, trailing);
    DataSplits(data);
  }

  lemma DataSplits(data: seq<Byte>)
    requires |data| >= 20
    ensures data == data[..4] + data[4..12] + data[12..16] + data[16..20] + data[20..]
  {
  }

  // ----- The layout, byte by byte --------------------------------------------------------------

  /** Numbers come with their most significant byte first. */
  lemma MostSignificantFirst(a: Byte, b: Byte, c: Byte, d: Byte)
    ensures BigEndian([a]) == a && BigEndian([a, b]) == 0x100 * a + b
    ensures BigEndian([a, b, c, d]) == 0x100_0000 * a + 0x1_0000 * b + 0x100 * c + d
  {
    assert [a, b, c, d][..3] == [a, b, c] && [a, b, c][..2] == [a, b] && [a, b][..1] == [a] && [a][..0] == [];
  }

  lemma BigEndianAppends(front: seq<Byte>, last: Byte)
    ensures BigEndian(front + [last]) == 0x100 * BigEndian(front) + last
  {
    assert (front + [last])[..|front|] == front;
  }

  /** Less than a header with its section length is rejected. */
  lemma ShortDataRejected(data: seq<Byte>)
    requires |data| < 16
    ensures DecodeHead(data) == None
  {
  }

  /** What follows the header and the section length must be at least as long as that
      length says, and hold the relation count; all else is accepted, and read in the
      order database, region set, section length, relation count. */
  lemma HeadRejectsExactlyIf(dbid: nat, regionSet: nat, len: nat, rest: seq<Byte>)
    requires Word(dbid, 4) && Word(regionSet, 8) && Word(len, 4)
    ensures var data := Bytes(dbid, 4) + Bytes(regionSet, 8) + Bytes(len, 4) + rest;
            && (DecodeHead(data) == None <==> |rest| < len || |rest| < 4)
            && (|rest| >= len && |rest| >= 4 ==>
                  DecodeHead(data) == Some(Head(dbid, Regions(regionSet), len, BigEndian(rest[..4]), rest[4..])))
  {
    var data := Bytes(dbid, 4) + Bytes(regionSet, 8) + Bytes(len, 4) + rest;
    LengthAt(Bytes(dbid, 4), Bytes(regionSet, 8), Bytes(len, 4), rest);
    ReadBytes(dbid, 4);
    ReadBytes(regionSet, 8);
    ReadBytes(len, 4);
    if |rest| >= 4 {
      assert data[16..20] == rest[..4] && data[20..] == rest[4..];
    }
  }

  lemma LengthAt(a: seq<Byte>, b: seq<Byte>, c: seq<Byte>, rest: seq<Byte>)
    requires |a| == 4 && |b| == 8 && |c| == 4
    ensures var data := a + b + c + rest; data[..4] == a && data[4..12] == b && data[12..16] == c && |data| == 16 + |rest|
  {
  }

  lemma OneByte(b: Byte)
    ensures Bytes(b, 1) == [b]
  {
    assert Bytes(b / 256, 0) == [];
  }

  lemma RelationBytes(tag: int, oid: nat, region: Byte, csn: nat, scan: Byte, n: nat, items: seq<Byte>, rest: seq<Byte>)
    requires tag == 'T' as int || tag == 'I' as int
    ensures [tag] + Bytes(oid, 4) + [region] + Bytes(csn, 8) + [scan] + Bytes(n, 4) + items + rest
            == [tag] + EncodeFixed(Fixed(oid, region, csn, scan, n)) + items + rest
  {
    OneByte(region);
    OneByte(scan);
  }

  /** A table is the letter T; its object id, region, sequence number, scan flag and number
      of tuples, in 4, 1, 8, 1 and 4 bytes; and the tuples. */
  lemma TableIsRead(oid: nat, region: Byte, csn: nat, scan: Byte, ts: seq<Tuple>, rest: seq<Byte>)
    requires Word(oid, 4) && Word(csn, 8) && Word(|ts|, 4) && forall t :: t in ts ==> TupleFits(t)
    ensures ParseRelation(['T' as int] + Bytes(oid, 4) + [region] + Bytes(csn, 8) + [scan] + Bytes(|ts|, 4)
                          + EncodeTuples(ts) + rest)
            == Got(Table(oid, region, csn, scan != 0, |ts|, ts), rest)
  {
    assert Power256(1) == 256;
    RelationBytes('T' as int, oid, region, csn, scan, |ts|, EncodeTuples(ts), rest);
    ReadRelation(Table(oid, region, csn, scan != 0, |ts|, ts), scan, rest);
  }

  /** An index is the letter I, the same fields with the number of pages, and the pages. */
  lemma IndexIsRead(oid: nat, region: Byte, csn: nat, scan: Byte, ps: seq<nat>, rest: seq<Byte>)
    requires Word(oid, 4) && Word(csn, 8) && Word(|ps|, 4) && forall p :: p in ps ==> Word(p, 4)
    ensures ParseRelation(['I' as int] + Bytes(oid, 4) + [region] + Bytes(csn, 8) + [scan] + Bytes(|ps|, 4)
                          + EncodePages(ps) + rest)
            == Got(Index(oid, region, csn, |ps|, ps), rest)
  {
    assert Power256(1) == 256;
    RelationBytes('I' as int, oid, region, csn, scan, |ps|, EncodePages(ps), rest);
    ReadRelation(Index(oid, region, csn, |ps|, ps), scan, rest);
  }

  /** Nothing else is a relation, and neither is less than its fixed fields. */
  lemma OtherLettersRejected(b: seq<Byte>)
    ensures b == [] || (b[0] != 'T' as int && b[0] != 'I' as int) || |b| < 19 ==> ParseRelation(b) == Bad
  {
  }

  /** A tuple is its block number, and then its offset; a page is its block number. */
  lemma ItemsAreRead(blocknum: nat, offset: nat, rest: seq<Byte>)
    requires Word(blocknum, 4) && Word(offset, 2)
    ensures ParseTuple(Bytes(blocknum, 4) + Bytes(offset, 2) + rest) == Got(Tuple(blocknum, offset), rest)
    ensures ParsePages(1, Bytes(blocknum, 4) + rest) == Got([blocknum], rest)
  {
    var b := Bytes(blocknum, 4) + Bytes(offset, 2) + rest;
    ReadBytes(blocknum, 4);
    ReadBytes(offset, 2);
    assert b[..4] == Bytes(blocknum, 4) && b[4..6] == Bytes(offset, 2) && b[6..] == rest;
    var p := Bytes(blocknum, 4) + rest;
    assert p[..4] == Bytes(blocknum, 4) && p[4..] == rest;
    assert [blocknum] + [] == [blocknum];
  }
}
