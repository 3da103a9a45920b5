/** Selecting from a bag of packets. */
module Bags {
  import opened Messages

  /** The packets of the bag that satisfy `f`, as often as they occur. */
  ghost function Only(m: multiset<Packet>, f: Packet -> bool): (r: multiset<Packet>)
    ensures forall p :: r[p] == if f(p) then m[p] else 0
    decreases |m|
  {
    if m == multiset{} then multiset{}
    else
      var p :| p in m;
      (if f(p) then multiset{p} else multiset{}) + Only(m - multiset{p}, f)
  }

  lemma OnlyUnion(a: multiset<Packet>, b: multiset<Packet>, f: Packet -> bool)
    ensures Only(a + b, f) == Only(a, f) + Only(b, f)
  {
    var x, y := Only(a + b, f), Only(a, f) + Only(b, f);
    forall p
      ensures x[p] == y[p]
    {
    }
  }

  lemma OnlyOne(p: Packet, f: Packet -> bool)
    ensures Only(multiset{p}, f) == if f(p) then multiset{p} else multiset{}
  {
  }

  lemma TakeBack(m: multiset<Packet>, p: Packet)
    ensures m + multiset{p} - multiset{p} == m
  {
  }

  lemma OnlyRest(a: multiset<Packet>, p: Packet, f: Packet -> bool)
    requires p in a
    ensures Only(a, f) == Only(a - multiset{p}, f) + (if f(p) then multiset{p} else multiset{})
  {
    assert a == a - multiset{p} + multiset{p};
    OnlyUnion(a - multiset{p}, multiset{p}, f);
    OnlyOne(p, f);
  }

  lemma OnlyDrops(a: multiset<Packet>, p: Packet, f: Packet -> bool)
    requires p in a
    ensures Only(a - multiset{p}, f) == if f(p) then Only(a, f) - multiset{p} else Only(a, f)
    ensures |Only(a, f)| == |Only(a - multiset{p}, f)| + (if f(p) then 1 else 0)
  {
    OnlyRest(a, p, f);
    TakeBack(Only(a - multiset{p}, f), p);
  }

  /** Adding packets of which `f` wants all, or none. */
  lemma OnlyAdds(a: multiset<Packet>, b: multiset<Packet>, f: Packet -> bool)
    ensures (forall p :: p in b ==> f(p)) ==> Only(a + b, f) == Only(a, f) + b
    ensures (forall p :: p in b ==> !f(p)) ==> Only(a + b, f) == Only(a, f)
  {
    OnlyUnion(a, b, f);
    if forall p :: p in b ==> f(p) {
      OnlyAll(b, f);
    }
    if forall p :: p in b ==> !f(p) {
      OnlyNone(b, f);
    }
  }

  lemma OnlyAll(m: multiset<Packet>, f: Packet -> bool)
    requires forall p :: p in m ==> f(p)
    ensures Only(m, f) == m
  {
  }

  lemma OnlyNone(m: multiset<Packet>, f: Packet -> bool)
    requires forall p :: p in m ==> !f(p)
    ensures Only(m, f) == multiset{}
  {
    assert forall p :: Only(m, f)[p] == 0;
  }
}
