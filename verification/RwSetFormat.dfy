/** The byte format of a transaction's read/write set, as the reader in
    xactserver/src/decoder.rs defines it, stated as functions on byte sequences. */
module RwSetFormat {
  import opened Messages
  import Bits

  // ----- Numbers -------------------------------------------------------------------

  /** An unsigned big-endian number. */
  function BigEndian(b: seq<Byte>): nat {
    if b == [] then 0 else 256 * BigEndian(b[..|b| - 1]) + b[|b| - 1]
  }

  /** What is left after reading something, or a failure. */
  datatype Parsed<+T> = Got(value: T, rest: seq<Byte>) | Bad

  /** `get_u8` to `get_u64`: an unsigned number of `width` bytes. */
  function ParseUint(b: seq<Byte>, width: nat): Parsed<nat> {
    if |b| < width then Bad else Got(BigEndian(b[..width]), b[width..])
  }

  // ----- Header --------------------------------------------------------------------

  /** The regions whose bit is set in the 64-bit region set. */
  function Regions(regionSet: nat): set<NodeId> {
    set i: nat | 0 <= i < 64 && Bits.Bit(regionSet, i)
  }

  datatype Head = Head(
    dbid: nat,
    participants: set<NodeId>,
    relationsLen: nat,
    nRelations: nat,
    remainder: seq<Byte>)

  /** What `RWSet::decode` reads: header, section length, relation count. The
      section length is compared with the bytes that follow it, count included. */
  function DecodeHead(data: seq<Byte>): Option<Head> {
    if |data| < 16 then None
    else
      var relationsLen := BigEndian(data[12..16]);
      if |data| - 16 < relationsLen || |data| < 20 then None
      else Some(Head(BigEndian(data[..4]), Regions(BigEndian(data[4..12])), relationsLen,
                     BigEndian(data[16..20]), data[20..]))
  }

  /** The participant set every node derives from the same transaction data. */
  function ParticipantsOf(data: seq<Byte>): Option<set<NodeId>> {
    match DecodeHead(data)
    case None => None
    case Some(h) => Some(h.participants)
  }

  /** Participants are numbered below 64. */
  lemma ParticipantsBelow64(data: seq<Byte>)
    ensures ParticipantsOf(data).Some? ==> forall i :: i in ParticipantsOf(data).value ==> i < 64
  {
  }

  // ----- Relations -----------------------------------------------------------------

  datatype Tuple = Tuple(blocknum: nat, offset: nat)

  datatype Relation =
    | Table(oid: nat, region: nat, csn: nat, isTableScan: bool, nTuples: nat, tuples: seq<Tuple>)
    | Index(oid: nat, region: nat, csn: nat, nPages: nat, pages: seq<nat>)

  const TABLE_TAG: Byte := 84

  const INDEX_TAG: Byte := 73

  function ParseTuple(b: seq<Byte>): Parsed<Tuple> {
    if |b| < 6 then Bad else Got(Tuple(BigEndian(b[..4]), BigEndian(b[4..6])), b[6..])
  }

  function ParseTuples(n: nat, b: seq<Byte>): Parsed<seq<Tuple>> {
    if n == 0 then Got([], b)
    else match ParseTuple(b)
      case Bad => Bad
      case Got(t, rest) =>
        match ParseTuples(n - 1, rest)
        case Bad => Bad
        case Got(ts, rest') => Got([t] + ts, rest')
  }

  /** A page is its block number. */
  function ParsePages(n: nat, b: seq<Byte>): Parsed<seq<nat>> {
    if n == 0 then Got([], b)
    else match ParseUint(b, 4)
      case Bad => Bad
      case Got(p, rest) =>
        match ParsePages(n - 1, rest)
        case Bad => Bad
        case Got(ps, rest') => Got([p] + ps, rest')
  }

  /** The five fixed fields of a relation, after its tag. */
  datatype Fixed = Fixed(oid: nat, region: nat, csn: nat, scan: nat, nItems: nat)

  function ParseFixed(b: seq<Byte>): Parsed<Fixed> {
    if |b| < 18 then Bad
    else Got(Fixed(BigEndian(b[..4]), BigEndian(b[4..5]), BigEndian(b[5..13]), BigEndian(b[13..14]), BigEndian(b[14..18])),
             b[18..])
  }

  function ParseRelation(b: seq<Byte>): (r: Parsed<Relation>)
  {
    if b == [] || (b[0] != TABLE_TAG && b[0] != INDEX_TAG) then Bad
    else match ParseFixed(b[1..])
      case Bad => Bad
      case Got(f, rest) =>
        if b[0] == INDEX_TAG then
          match ParsePages(f.nItems, rest)
          case Bad => Bad
          case Got(ps, rest') => Got(Index(f.oid, f.region, f.csn, f.nItems, ps), rest')
        else
          match ParseTuples(f.nItems, rest)
          case Bad => Bad
          case Got(ts, rest') => Got(Table(f.oid, f.region, f.csn, f.scan != 0, f.nItems, ts), rest')
  }

  lemma {:induction false} ItemsShrink(n: nat, b: seq<Byte>)
    ensures ParseTuples(n, b).Got? ==> |ParseTuples(n, b).rest| <= |b|
    ensures ParsePages(n, b).Got? ==> |ParsePages(n, b).rest| <= |b|
    decreases n
  {
    if n > 0 {
      if ParseTuple(b).Got? {
        ItemsShrink(n - 1, ParseTuple(b).rest);
      }
      if ParseUint(b, 4).Got? {
        ItemsShrink(n - 1, ParseUint(b, 4).rest);
      }
    }
  }

  lemma RelationShrinks(b: seq<Byte>)
    ensures ParseRelation(b).Got? ==> |ParseRelation(b).rest| < |b|
  {
    if b != [] && ParseFixed(b[1..]).Got? {
      ItemsShrink(ParseFixed(b[1..]).value.nItems, ParseFixed(b[1..]).rest);
    }
  }

  /** Relations up to the end of the section. */
  function ParseSection(b: seq<Byte>): Option<seq<Relation>>
    decreases |b|
  {
    if b == [] then Some([])
    else
      match ParseRelation(b)
      case Bad => None
      case Got(r, rest) =>
        RelationShrinks(b);
        match ParseSection(rest)
        case None => None
        case Some(rs) => Some([r] + rs)
  }

  /** `decode_relations` on its section: the count is compared as a `u32`. */
  function DecodeSection(section: seq<Byte>, nRelations: nat): Option<seq<Relation>> {
    match ParseSection(section)
    case None => None
    case Some(rs) => if nRelations == |rs| % Bits.U32_LIMIT then Some(rs) else None
  }
}
