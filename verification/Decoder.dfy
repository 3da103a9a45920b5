/** The read/write-set decoder (xactserver/src/decoder.rs): a cursor that each read
    moves forwards, and loops that collect bits, relations, tuples and pages. */
module Decoder {
  import opened Messages
  import opened RwSetFormat
  import Bits
  import RwSetRoundTrip

  /** A `Bytes` cursor: the bytes not read yet. */
  class Cursor {
    var bytes: seq<Byte>

    constructor (bytes: seq<Byte>)
      ensures this.bytes == bytes
    {
      this.bytes := bytes;
    }

    /** One of `get_u8` to `get_u64`, by width. A read that fails moves nothing. */
    method GetUint(width: nat) returns (r: Option<nat>)
      modifies this
      ensures match ParseUint(old(bytes), width)
              case Bad => r == None && bytes == old(bytes)
              case Got(v, rest) => r == Some(v) && bytes == rest
    {
      if |bytes| < width {
        return None;
      }
      var v: nat := 0;
      var i := 0;
      while i < width
        invariant 0 <= i <= width <= |old(bytes)|
        invariant v == BigEndian(old(bytes)[..i]) && bytes == old(bytes)[i..]
      {
        assert old(bytes)[..i + 1][..i] == old(bytes)[..i];
        v := 256 * v + bytes[0];
        bytes := bytes[1..];
        i := i + 1;
      }
      return Some(v);
    }

    /** `split_to`: takes the first `n` bytes off. */
    method SplitTo(n: nat) returns (front: seq<Byte>)
      requires n <= |bytes|
      modifies this
      ensures front == old(bytes)[..n] && bytes == old(bytes)[n..]
    {
      front := bytes[..n];
      bytes := bytes[n..];
    }
  }

  method DecodeTuple(buf: Cursor) returns (r: Option<Tuple>)
    modifies buf
    ensures match ParseTuple(old(buf.bytes))
            case Bad => r == None
            case Got(t, rest) => r == Some(t) && buf.bytes == rest
  {
    ghost var b := buf.bytes;
    var blocknum := buf.GetUint(4);
    if blocknum == None {
      return None;
    }
    var offset := buf.GetUint(2);
    if offset == None {
      return None;
    }
    assert b[4..][..2] == b[4..6] && b[4..][2..] == b[6..];
    return Some(Tuple(blocknum.value, offset.value));
  }

  /** What is left of parsing `n` tuples from `b` once `done` have been read and the
      rest of the buffer is `rest`. */
  ghost predicate TuplesSoFar(n: nat, b: seq<Byte>, done: seq<Tuple>, rest: seq<Byte>) {
    && |done| <= n
    && ParseTuples(n, b) == (match ParseTuples(n - |done|, rest)
                             case Bad => Bad
                             case Got(ts, rest') => Got(done + ts, rest'))
  }

  lemma NextTuple(n: nat, b: seq<Byte>, done: seq<Tuple>, rest: seq<Byte>)
    requires TuplesSoFar(n, b, done, rest) && |done| < n
    ensures match ParseTuple(rest)
            case Bad => ParseTuples(n, b) == Bad
            case Got(t, rest') => TuplesSoFar(n, b, done + [t], rest')
  {
    if ParseTuple(rest).Got? {
      var Got(t, rest') := ParseTuple(rest);
      if ParseTuples(n - |done| - 1, rest').Got? {
        var ts := ParseTuples(n - |done| - 1, rest').value;
        assert done + ([t] + ts) == done + [t] + ts;
      }
    }
  }

  method DecodeTuples(buf: Cursor, n: nat) returns (r: Option<seq<Tuple>>)
    modifies buf
    ensures match ParseTuples(n, old(buf.bytes))
            case Bad => r == None
            case Got(ts, rest) => r == Some(ts) && buf.bytes == rest
  {
    ghost var b := buf.bytes;
    var tuples := [];
    assert TuplesSoFar(n, b, [], b) by {
      if ParseTuples(n, b).Got? {
        assert [] + ParseTuples(n, b).value == ParseTuples(n, b).value;
      }
    }
    for i := 0 to n
      invariant |tuples| == i && TuplesSoFar(n, b, tuples, buf.bytes)
    {
      NextTuple(n, b, tuples, buf.bytes);
      var t := DecodeTuple(buf);
      if t == None {
        return None;
      }
      tuples := tuples + [t.value];
    }
    assert tuples + [] == tuples;
    return Some(tuples);
  }

  ghost predicate PagesSoFar(n: nat, b: seq<Byte>, done: seq<nat>, rest: seq<Byte>) {
    && |done| <= n
    && ParsePages(n, b) == (match ParsePages(n - |done|, rest)
                            case Bad => Bad
                            case Got(ps, rest') => Got(done + ps, rest'))
  }

  lemma NextPage(n: nat, b: seq<Byte>, done: seq<nat>, rest: seq<Byte>)
    requires PagesSoFar(n, b, done, rest) && |done| < n
    ensures match ParseUint(rest, 4)
            case Bad => ParsePages(n, b) == Bad
            case Got(p, rest') => PagesSoFar(n, b, done + [p], rest')
  {
    if ParseUint(rest, 4).Got? {
      var Got(p, rest') := ParseUint(rest, 4);
      if ParsePages(n - |done| - 1, rest').Got? {
        var ps := ParsePages(n - |done| - 1, rest').value;
        assert done + ([p] + ps) == done + [p] + ps;
      }
    }
  }

  method DecodePages(buf: Cursor, n: nat) returns (r: Option<seq<nat>>)
    modifies buf
    ensures match ParsePages(n, old(buf.bytes))
            case Bad => r == None
            case Got(ps, rest) => r == Some(ps) && buf.bytes == rest
  {
    ghost var b := buf.bytes;
    var pages := [];
    assert PagesSoFar(n, b, [], b) by {
      if ParsePages(n, b).Got? {
        assert [] + ParsePages(n, b).value == ParsePages(n, b).value;
      }
    }
    for i := 0 to n
      invariant |pages| == i && PagesSoFar(n, b, pages, buf.bytes)
    {
      NextPage(n, b, pages, buf.bytes);
      var p := buf.GetUint(4);
      if p == None {
        return None;
      }
      pages := pages + [p.value];
    }
    assert pages + [] == pages;
    return Some(pages);
  }

  /** The fixed fields, read one after another. */
  method DecodeFixed(buf: Cursor) returns (r: Option<Fixed>)
    modifies buf
    ensures match ParseFixed(old(buf.bytes))
            case Bad => r == None
            case Got(f, rest) => r == Some(f) && buf.bytes == rest
  {
    ghost var b := buf.bytes;
    var relid := buf.GetUint(4);
    if relid == None { return None; }
    var region := buf.GetUint(1);
    if region == None { return None; }
    assert b[4..][..1] == b[4..5] && b[4..][1..] == b[5..];
    var csn := buf.GetUint(8);
    if csn == None { return None; }
    assert b[5..][..8] == b[5..13] && b[5..][8..] == b[13..];
    var scan := buf.GetUint(1);
    if scan == None { return None; }
    assert b[13..][..1] == b[13..14] && b[13..][1..] == b[14..];
    var nItems := buf.GetUint(4);
    if nItems == None { return None; }
    assert b[14..][..4] == b[14..18] && b[14..][4..] == b[18..];
    return Some(Fixed(relid.value, region.value, csn.value, scan.value, nItems.value));
  }

  method DecodeRelation(buf: Cursor) returns (r: Option<Relation>)
    modifies buf
    ensures match ParseRelation(old(buf.bytes))
            case Bad => r == None
            case Got(rel, rest) => r == Some(rel) && buf.bytes == rest
  {
    ghost var b := buf.bytes;
    var tag := buf.GetUint(1);
    if tag == None {
      return None;
    }
    assert b[..1] == [b[0]] && BigEndian([b[0]]) == b[0] by {
      assert [b[0]][..0] == [];
    }
    if tag.value != TABLE_TAG && tag.value != INDEX_TAG {
      return None;
    }
    var f := DecodeFixed(buf);
    if f == None {
      return None;
    }
    if tag.value == INDEX_TAG {
      var pages := DecodePages(buf, f.value.nItems);
      if pages == None {
        return None;
      }
      return Some(Index(f.value.oid, f.value.region, f.value.csn, f.value.nItems, pages.value));
    } else {
      var tuples := DecodeTuples(buf, f.value.nItems);
      if tuples == None {
        return None;
      }
      return Some(Table(f.value.oid, f.value.region, f.value.csn, f.value.scan != 0, f.value.nItems, tuples.value));
    }
  }

  /** What is left of parsing a section once `done` have been read. */
  ghost predicate SectionSoFar(b: seq<Byte>, done: seq<Relation>, rest: seq<Byte>) {
    ParseSection(b) == (match ParseSection(rest)
                        case None => None
                        case Some(rs) => Some(done + rs))
  }

  lemma NextRelation(b: seq<Byte>, done: seq<Relation>, rest: seq<Byte>)
    requires SectionSoFar(b, done, rest) && rest != []
    ensures match ParseRelation(rest)
            case Bad => ParseSection(b) == None
            case Got(r, rest') => |rest'| < |rest| && SectionSoFar(b, done + [r], rest')
  {
    RelationShrinks(rest);
    if ParseRelation(rest).Got? {
      var Got(r, rest') := ParseRelation(rest);
      if ParseSection(rest').Some? {
        assert done + ([r] + ParseSection(rest').value) == done + [r] + ParseSection(rest').value;
      }
    }
  }

  /** `decode_relations`, on the section already split off: it ends with the section
      used up, or with an error. */
  method DecodeRelations(section: seq<Byte>, nRelations: nat) returns (r: Option<seq<Relation>>)
    ensures r == DecodeSection(section, nRelations)
  {
    var buf := new Cursor(section);
    var relations := [];
    assert SectionSoFar(section, [], section) by {
      if ParseSection(section).Some? {
        assert [] + ParseSection(section).value == ParseSection(section).value;
      }
    }
    while buf.bytes != []
      invariant SectionSoFar(section, relations, buf.bytes) && fresh(buf)
      decreases |buf.bytes|
    {
      NextRelation(section, relations, buf.bytes);
      var rel := DecodeRelation(buf);
      if rel == None {
        return None;
      }
      relations := relations + [rel.value];
    }
    assert relations + [] == relations;
    if nRelations != |relations| % Bits.U32_LIMIT {
      return None;
    }
    return Some(relations);
  }

  /** The header loop: exactly the set bits. */
  method DecodeRegions(regionSet: nat) returns (participants: set<NodeId>)
    ensures participants == Regions(regionSet)
  {
    participants := {};
    for i := 0 to 64
      invariant participants == set j: nat | 0 <= j < i && Bits.Bit(regionSet, j)
    {
      if Bits.And(Bits.Shr(regionSet, i), 1) == 1 {
        participants := participants + {i};
      }
    }
  }

  datatype RestOutcome = Decoded | Failed | Panicked

  class RwSetReader {
    var dbid: nat
    var participants: set<NodeId>
    var relationsLen: nat
    var nRelations: nat
    var relations: Option<seq<Relation>>
    const remainder: Cursor
    var decodedAll: bool

    ghost predicate Holds(h: Head)
      reads this, remainder
    {
      && dbid == h.dbid && participants == h.participants
      && relationsLen == h.relationsLen && nRelations == h.nRelations
      && relations == None && !decodedAll && remainder.bytes == h.remainder
    }

    constructor (h: Head)
      ensures Holds(h) && fresh(remainder)
    {
      dbid, participants, relationsLen, nRelations := h.dbid, h.participants, h.relationsLen, h.nRelations;
      relations, decodedAll := None, false;
      remainder := new Cursor(h.remainder);
    }

    /** `RWSet::decode`: null for an error. */
    static method Decode(data: seq<Byte>) returns (r: RwSetReader?)
      ensures match DecodeHead(data)
              case None => r == null
              case Some(h) => r != null && fresh(r) && fresh(r.remainder) && r.Holds(h)
    {
      var buf := new Cursor(data);
      var dbid := buf.GetUint(4);
      if dbid == None { return null; }
      var regionSet := buf.GetUint(8);
      if regionSet == None { return null; }
      assert data[4..][..8] == data[4..12] && data[4..][8..] == data[12..];
      var participants := DecodeRegions(regionSet.value);
      var relationsLen := buf.GetUint(4);
      if relationsLen == None { return null; }
      assert data[12..][..4] == data[12..16] && data[12..][4..] == data[16..];
      if |buf.bytes| < relationsLen.value { return null; }
      var nRelations := buf.GetUint(4);
      if nRelations == None { return null; }
      assert data[16..][..4] == data[16..20] && data[16..][4..] == data[20..];
      r := new RwSetReader(Head(dbid.value, participants, relationsLen.value, nRelations.value, buf.bytes));
    }

    /** `decode_rest`. Splitting off the section panics exactly when fewer bytes than it
        claims follow the count; an error leaves the section consumed; and decoding twice
        changes nothing. The participants are never touched. */
    method DecodeRest() returns (outcome: RestOutcome)
      modifies this`relations, this`decodedAll, remainder
      ensures outcome == Panicked <==> !old(decodedAll) && |old(remainder.bytes)| < relationsLen
      ensures outcome == Panicked ==>
                !decodedAll && relations == old(relations) && remainder.bytes == old(remainder.bytes)
      ensures old(decodedAll) ==>
                outcome == Decoded && decodedAll && relations == old(relations) && remainder.bytes == old(remainder.bytes)
      ensures !old(decodedAll) && outcome != Panicked ==>
                var rs := DecodeSection(old(remainder.bytes)[..relationsLen], nRelations);
                && remainder.bytes == old(remainder.bytes)[relationsLen..]
                && (outcome == Decoded <==> rs.Some?) && decodedAll == rs.Some?
                && relations == (if rs.Some? then rs else old(relations))
    {
      if decodedAll {
        return Decoded;
      }
      if |remainder.bytes| < relationsLen {
        return Panicked;
      }
      var section := remainder.SplitTo(relationsLen);
      var rs := DecodeRelations(section, nRelations);
      if rs == None {
        return Failed;
      }
      relations := rs;
      decodedAll := true;
      return Decoded;
    }
  }

  /** The part of the read/write set the handlers use: decoding, and its participants. */
  method DecodeParticipants(data: seq<Byte>) returns (participants: Option<set<NodeId>>)
    ensures participants == ParticipantsOf(data)
  {
    var reader := RwSetReader.Decode(data);
    if reader == null {
      return None;
    }
    return Some(reader.participants);
  }

  /** `decode` followed by `decode_rest` yields what the format says, and a second
      `decode_rest` yields it again. */
  method DecodeWhole(data: seq<Byte>) returns (x: Option<RwSetRoundTrip.RwSet>, panicked: bool)
    ensures x == RwSetRoundTrip.DecodeAll(data)
    ensures panicked <==> DecodeHead(data).Some? && |data| < 20 + DecodeHead(data).value.relationsLen
  {
    var reader := RwSetReader.Decode(data);
    if reader == null {
      return None, false;
    }
    var outcome := reader.DecodeRest();
    if outcome != Decoded {
      return None, outcome == Panicked;
    }
    var again := reader.DecodeRest();
    assert again == Decoded;
    return Some(RwSetRoundTrip.RwSet(reader.dbid, reader.participants, reader.relations.value)), false;
  }

  /** The length check lets through data whose section is cut short: the four bytes of
      the count are counted towards it. */
  lemma AcceptedThoughCutShort()
    ensures var data: seq<Byte> := [0, 0, 0, 0, 0, 0, 0, 0, 0, 0, 0, 0, 0, 0, 0, 4, 0, 0, 0, 0];
            DecodeHead(data).Some? && |data| < 20 + DecodeHead(data).value.relationsLen
  {
    var data: seq<Byte> := [0, 0, 0, 0, 0, 0, 0, 0, 0, 0, 0, 0, 0, 0, 0, 4, 0, 0, 0, 0];
    assert data[12..16] == [0, 0, 0, 4];
    assert [0, 0, 0, 4][..3] == [0, 0, 0] && [0, 0, 0][..2] == [0, 0] && [0, 0][..1] == [0] && [0][..0] == [];
    assert BigEndian([0]) == 0 && BigEndian([0, 0]) == 0 && BigEndian([0, 0, 0]) == 0;
    assert BigEndian([0, 0, 0, 4]) == 4;
  }
}
