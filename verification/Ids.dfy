/** Transaction ids (xactserver/src/id.rs): a 32-bit local counter above a 32-bit
    node id, and the text that names the transaction in Postgres. */
module Ids {
  import opened Messages
  import Bits

  const BIT_LENGTH: nat := 32

  const INVALID: XactId := 0

  function New(counter: nat, node: NodeId): XactId {
    Bits.Or(Bits.Shl(counter, BIT_LENGTH, 64), node)
  }

  /** The cast to `u32` drops everything above 32 bits. */
  function Counter(id: XactId): nat {
    Bits.Shr(id, BIT_LENGTH) % Bits.U32_LIMIT
  }

  function Node(id: XactId): NodeId {
    Bits.And(id, Bits.Pow2(BIT_LENGTH) - 1)
  }

  lemma Limits()
    ensures Bits.Pow2(32) == Bits.U32_LIMIT && Bits.Pow2(64) == Bits.U64_LIMIT
  {
    assert Bits.Pow2(8) == 256;
    Bits.Pow2Add(8, 8);
    Bits.Pow2Add(16, 16);
    Bits.Pow2Add(32, 32);
  }

  lemma NewIsSum(counter: nat, node: NodeId)
    requires counter < Bits.U32_LIMIT && node < Bits.U32_LIMIT
    ensures New(counter, node) == counter * Bits.U32_LIMIT + node
    ensures New(counter, node) < Bits.U64_LIMIT
  {
    Limits();
    assert counter * Bits.Pow2(32) < Bits.U64_LIMIT;
    Bits.DivModUnique(counter * Bits.Pow2(32), Bits.U64_LIMIT, 0, counter * Bits.Pow2(32));
    Bits.OrDisjoint(counter, node, 32);
  }

  lemma PartsAreDivision(id: XactId)
    requires id < Bits.U64_LIMIT
    ensures Counter(id) == id / Bits.U32_LIMIT && Node(id) == id % Bits.U32_LIMIT
  {
    Limits();
    Bits.AndMask(id, 32);
  }

  /** Packing and unpacking are inverse to each other: ids and pairs of a counter and a
      node correspond one to one. */
  lemma UnpackNew(counter: nat, node: NodeId)
    requires counter < Bits.U32_LIMIT && node < Bits.U32_LIMIT
    ensures Counter(New(counter, node)) == counter && Node(New(counter, node)) == node
  {
    NewIsSum(counter, node);
    PartsAreDivision(New(counter, node));
    Bits.DivModUnique(New(counter, node), Bits.U32_LIMIT, counter, node);
  }

  lemma NewUnpacked(id: XactId)
    requires id < Bits.U64_LIMIT
    ensures New(Counter(id), Node(id)) == id
    ensures Counter(id) < Bits.U32_LIMIT && Node(id) < Bits.U32_LIMIT
  {
    PartsAreDivision(id);
    NewIsSum(Counter(id), Node(id));
  }

  /** The id after `counter` transactions of this node: `xact_id_counter += 1` in a
      32-bit word. */
  function Next(counter: nat): nat {
    (counter + 1) % Bits.U32_LIMIT
  }

  /** An issued id is INVALID exactly when node 0 has overflowed its counter. */
  lemma NextIsValid(counter: nat, node: NodeId)
    requires counter < Bits.U32_LIMIT && node < Bits.U32_LIMIT
    ensures New(Next(counter), node) == INVALID <==> counter == Bits.U32_LIMIT - 1 && node == 0
  {
    if counter == Bits.U32_LIMIT - 1 {
      assert Next(counter) == 0;
    } else {
      Bits.DivModUnique(counter + 1, Bits.U32_LIMIT, 0, counter + 1);
      assert Next(counter) == counter + 1;
    }
    NewIsSum(Next(counter), node);
  }

  /** The counter after `n` transactions. */
  function CounterAfter(n: nat): nat {
    if n == 0 then 0 else Next(CounterAfter(n - 1))
  }

  lemma {:induction false} CounterWraps(n: nat)
    ensures CounterAfter(n) == n % Bits.U32_LIMIT
  {
    if n > 0 {
      CounterWraps(n - 1);
    }
  }

  /** Two transactions of one node get the same id exactly if their numbers agree modulo
      2^32: beyond the overflow of the counter ids repeat. */
  lemma IdsRepeatExactly(m: nat, n: nat, node: NodeId)
    requires node < Bits.U32_LIMIT
    ensures New(CounterAfter(m), node) == New(CounterAfter(n), node) <==> m % Bits.U32_LIMIT == n % Bits.U32_LIMIT
  {
    CounterWraps(m);
    CounterWraps(n);
    UnpackNew(CounterAfter(m), node);
    UnpackNew(CounterAfter(n), node);
  }

  // ----- The gid ---------------------------------------------------------------------

  predicate IsDigit(c: char) { '0' <= c <= '9' }

  function Digit(d: nat): char
    requires d < 10
  {
    '0' + d as char
  }

  function DigitValue(c: char): nat
    requires IsDigit(c)
  {
    (c - '0') as nat
  }

  function Decimal(n: nat): (s: string)
    ensures s != [] && forall i :: 0 <= i < |s| ==> IsDigit(s[i])
  {
    if n < 10 then [Digit(n)] else Decimal(n / 10) + [Digit(n % 10)]
  }

  function ParseDecimal(s: string): nat
    requires forall i :: 0 <= i < |s| ==> IsDigit(s[i])
  {
    if s == [] then 0 else 10 * ParseDecimal(s[..|s| - 1]) + DigitValue(s[|s| - 1])
  }

  lemma {:induction false} ParseDecimalInverts(n: nat)
    ensures ParseDecimal(Decimal(n)) == n
  {
    var s := Decimal(n);
    if n >= 10 {
      ParseDecimalInverts(n / 10);
      assert s[..|s| - 1] == Decimal(n / 10);
    } else {
      assert s[..|s| - 1] == [];
    }
  }

  /** `Display` for an id, used as the gid of its prepared transaction. */
  function Display(id: XactId): string {
    "(" + Decimal(Counter(id)) + "," + Decimal(Node(id)) + ")"
  }

  lemma SplitAtComma(a: string, b: string, a': string, b': string)
    requires forall i :: 0 <= i < |a| ==> IsDigit(a[i])
    requires forall i :: 0 <= i < |a'| ==> IsDigit(a'[i])
    requires a + "," + b == a' + "," + b'
    ensures a == a' && b == b'
  {
    var s, s' := a + "," + b, a' + "," + b';
    assert s[|a|] == ',' && s'[|a'|] == ',';
    assert forall i :: 0 <= i < |a| ==> s[i] == a[i];
    assert forall i :: 0 <= i < |a'| ==> s'[i] == a'[i];
    assert |a| == |a'|;
    assert s[..|a|] == a && s'[..|a|] == a';
    assert s[|a| + 1..] == b && s'[|a| + 1..] == b';
  }

  /** Different transactions have different gids. */
  lemma DisplayInjective(x: XactId, y: XactId)
    requires x < Bits.U64_LIMIT && y < Bits.U64_LIMIT && Display(x) == Display(y)
    ensures x == y
  {
    var a, b, a', b' := Decimal(Counter(x)), Decimal(Node(x)), Decimal(Counter(y)), Decimal(Node(y));
    assert Display(x)[1..] == a + "," + (b + ")");
    assert Display(y)[1..] == a' + "," + (b' + ")");
    SplitAtComma(a, b + ")", a', b' + ")");
    assert b == (b + ")")[..|b + ")"| - 1] && b' == (b' + ")")[..|b' + ")"| - 1];
    ParseDecimalInverts(Counter(x));
    ParseDecimalInverts(Counter(y));
    ParseDecimalInverts(Node(x));
    ParseDecimalInverts(Node(y));
    NewUnpacked(x);
    NewUnpacked(y);
  }

  lemma GidParts(a: string, b: string)
    requires forall i :: 0 <= i < |a| ==> IsDigit(a[i])
    requires forall i :: 0 <= i < |b| ==> IsDigit(b[i])
    ensures var s, comma := "(" + a + "," + b + ")", |a| + 1;
            && s[0] == '(' && s[comma] == ',' && s[|s| - 1] == ')'
            && s[1..comma] == a && s[comma + 1..|s| - 1] == b
            && (forall i :: 0 < i < |s| - 1 && i != comma ==> IsDigit(s[i]))
  {
    var s, comma := "(" + a + "," + b + ")", |a| + 1;
    forall i | 0 < i < |s| - 1 && i != comma
      ensures IsDigit(s[i])
    {
      assert s[i] == if i < comma then a[i - 1] else b[i - comma - 1];
    }
  }

  /** A gid is read as the counter between "(" and ",", and the node between "," and ")". */
  lemma DisplayReads(counter: nat, node: NodeId) returns (comma: nat)
    requires counter < Bits.U32_LIMIT && node < Bits.U32_LIMIT
    ensures var s := Display(New(counter, node));
            && 0 < comma < |s| - 1 && s[0] == '(' && s[comma] == ',' && s[|s| - 1] == ')'
            && (forall i :: 0 < i < |s| - 1 && i != comma ==> IsDigit(s[i]))
            && ParseDecimal(s[1..comma]) == counter
            && ParseDecimal(s[comma + 1..|s| - 1]) == node
  {
    UnpackNew(counter, node);
    GidParts(Decimal(counter), Decimal(node));
    ParseDecimalInverts(counter);
    ParseDecimalInverts(node);
    comma := |Decimal(counter)| + 1;
  }

  /** Digits are read from the left, the most significant first. */
  lemma DigitsCount(s: string, c: char)
    requires forall i :: 0 <= i < |s| ==> IsDigit(s[i])
    requires IsDigit(c)
    ensures ParseDecimal(s + [c]) == 10 * ParseDecimal(s) + (c as int - '0' as int)
  {
    assert (s + [c])[..|s|] == s;
  }

  /** They are written so, too: further digits go to the right. */
  lemma DigitsAppend(n: nat, d: nat)
    requires n > 0 && d < 10
    ensures Decimal(10 * n + d) == Decimal(n) + [Digit(d)]
  {
    Bits.DivModUnique(10 * n + d, 10, n, d);
  }

  lemma OneDigit(d: nat)
    requires d < 10
    ensures Decimal(d) == [Digit(d)]
  {
  }

  lemma DisplayExample()
    ensures Display(New(1, 2)) == "(1,2)"
  {
    UnpackNew(1, 2);
    OneDigit(1);
    OneDigit(2);
    assert [Digit(1)] == "1" && [Digit(2)] == "2";
  }
}
