// The canonical order of evidence: one arrangement for items with distinct identities.
module Canonical {
  import opened Bytes
  import opened Evidence
  import opened Sequences

  predicate CanonicalLess(a: Item, b: Item) {
    if a.header.observedAt != b.header.observedAt then a.header.observedAt < b.header.observedAt
    else if a.header.source != b.header.source then a.header.source < b.header.source
    else if a.header.sequence != b.header.sequence then a.header.sequence < b.header.sequence
    else a.header.id < b.header.id
  }

  // A strict order that tells any two items with different identities apart.
  lemma {:induction false} CanonicalLessIsTotal(a: Item, b: Item, c: Item)
    ensures !CanonicalLess(a, a)
    ensures CanonicalLess(a, b) ==> !CanonicalLess(b, a)
    ensures CanonicalLess(a, b) && CanonicalLess(b, c) ==> CanonicalLess(a, c)
    ensures a.header.id != b.header.id ==> CanonicalLess(a, b) || CanonicalLess(b, a)
    ensures !CanonicalLess(b, a) && !CanonicalLess(c, b) ==> !CanonicalLess(c, a)
  {
  }

  function Placed(item: Item, s: seq<Item>): (t: seq<Item>)
    ensures multiset(t) == multiset(s) + multiset{item}
  {
    if s == [] || !CanonicalLess(s[0], item) then [item] + s
    else
      assert s == [s[0]] + s[1..];
      [s[0]] + Placed(item, s[1..])
  }

  function CanonicalOrder(items: seq<Item>): (t: seq<Item>)
    ensures multiset(t) == multiset(items)
  {
    if items == [] then []
    else
      assert items == [items[0]] + items[1..];
      Placed(items[0], CanonicalOrder(items[1..]))
  }

  ghost predicate Ordered(s: seq<Item>) {
    forall i, j :: 0 <= i < j < |s| ==> !CanonicalLess(s[j], s[i])
  }

  ghost predicate DistinctIds(s: seq<Item>) {
    forall i, j :: 0 <= i < j < |s| ==> s[i].header.id != s[j].header.id
  }

  lemma {:induction false} PrependedIsOrdered(item: Item, s: seq<Item>)
    requires Ordered(s) && forall x <- s :: !CanonicalLess(x, item)
    ensures Ordered([item] + s)
  {
    hide CanonicalLess;
  }

  lemma {:induction false} PlacedIsOrdered(item: Item, s: seq<Item>)
    requires Ordered(s)
    ensures Ordered(Placed(item, s))
  {
    hide CanonicalLess;
    if s == [] {
    } else if !CanonicalLess(s[0], item) {
      forall x <- s
        ensures !CanonicalLess(x, item)
      {
        var k :| 0 <= k < |s| && s[k] == x;
        CanonicalLessIsTotal(item, s[0], x);
        CanonicalLessIsTotal(s[0], s[0], x);
      }
      PrependedIsOrdered(item, s);
    } else {
      PlacedIsOrdered(item, s[1..]);
      var rest := Placed(item, s[1..]);
      forall x <- rest
        ensures !CanonicalLess(x, s[0])
      {
        assert x in multiset(rest);
        CanonicalLessIsTotal(s[0], item, item);
      }
      PrependedIsOrdered(s[0], rest);
    }
  }

  lemma {:induction false} CanonicalOrderIsOrdered(items: seq<Item>)
    ensures Ordered(CanonicalOrder(items))
  {
    if items != [] {
      CanonicalOrderIsOrdered(items[1..]);
      PlacedIsOrdered(items[0], CanonicalOrder(items[1..]));
    }
  }

  // Items with distinct identities have one canonical arrangement.
  lemma {:induction false} OneArrangement(a: seq<Item>, b: seq<Item>)
    requires Ordered(a) && Ordered(b) && multiset(a) == multiset(b) && DistinctIds(a)
    ensures a == b
    decreases |a|
  {
    assert |multiset(a)| == |a| && |multiset(b)| == |b|;
    if a != [] {
      FirstsAgree(a, b);
      assert a == [a[0]] + a[1..] && b == [b[0]] + b[1..];
      SameTails(a, b);
      OneArrangement(a[1..], b[1..]);
    }
  }

  lemma {:induction false} SameTails(a: seq<Item>, b: seq<Item>)
    requires a != [] && b != [] && a[0] == b[0] && multiset(a) == multiset(b)
    ensures multiset(a[1..]) == multiset(b[1..])
  {
    assert a == [a[0]] + a[1..] && b == [b[0]] + b[1..];
    assert multiset(a) - multiset{a[0]} == multiset(a[1..]);
    assert multiset(b) - multiset{b[0]} == multiset(b[1..]);
  }

  lemma {:induction false} FirstsAgree(a: seq<Item>, b: seq<Item>)
    requires Ordered(a) && Ordered(b) && multiset(a) == multiset(b) && DistinctIds(a) && a != [] && b != []
    ensures a[0] == b[0]
  {
    hide CanonicalLess;
    assert a[0] in multiset(b) && b[0] in multiset(a);
    var i :| 0 <= i < |a| && a[i] == b[0];
    var j :| 0 <= j < |b| && b[j] == a[0];
    CanonicalLessIsTotal(a[0], b[0], b[0]);
  }

  // So a snapshot depends on what is retained, not on how it came to be there.
  lemma {:induction false} SnapshotIsOrderFree(a: seq<Item>, b: seq<Item>)
    requires multiset(a) == multiset(b) && DistinctIds(a)
    ensures CanonicalOrder(a) == CanonicalOrder(b)
  {
    hide Ordered;
    CanonicalOrderIsOrdered(a);
    CanonicalOrderIsOrdered(b);
    IdsStayDistinct(a, CanonicalOrder(a));
    OneArrangement(CanonicalOrder(a), CanonicalOrder(b));
  }

  lemma {:induction false} IdsStayDistinct(a: seq<Item>, b: seq<Item>)
    requires multiset(a) == multiset(b) && DistinctIds(a)
    ensures DistinctIds(b)
    decreases |a|
  {
    assert |multiset(a)| == |a| && |multiset(b)| == |b|;
    if a != [] {
      var k := Sequences.TakenOut(a, b);
      var front, rest := a[..|a| - 1], b[..k] + b[k + 1..];
      IdsStayDistinct(front, rest);
      forall x <- rest
        ensures x.header.id != b[k].header.id
      {
        assert x in multiset(rest);
        assert x in multiset(front);
        var i :| 0 <= i < |front| && front[i] == x;
      }
      OneMoreDistinct(b, k, rest);
    }
  }

  lemma {:induction false} OneMoreDistinct(b: seq<Item>, k: nat, rest: seq<Item>)
    requires k < |b| && rest == b[..k] + b[k + 1..] && DistinctIds(rest)
    requires forall x <- rest :: x.header.id != b[k].header.id
    ensures DistinctIds(b)
  {
    forall i, j | 0 <= i < j < |b|
      ensures b[i].header.id != b[j].header.id
    {
      var p, q := if i < k then i else i - 1, if j < k then j else j - 1;
      if i != k && j != k {
        assert rest[p] == b[i] && rest[q] == b[j];
      } else if i == k {
        assert rest[q] == b[j] && rest[q] in rest;
      } else {
        assert rest[p] == b[i] && rest[p] in rest;
      }
    }
  }
}
