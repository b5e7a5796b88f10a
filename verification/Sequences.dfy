// Facts about sequences that proofs elsewhere would otherwise repeat.
module Sequences {
  lemma TakeNext<T>(s: seq<T>, k: nat)
    requires k < |s|
    ensures s[..k + 1] == s[..k] + [s[k]]
  {
  }

  lemma Regroup<T>(a: seq<T>, b: seq<T>, c: seq<T>)
    ensures a + (b + c) == (a + b) + c
  {
  }

  lemma TakeAndDrop<T>(s: seq<T>, k: nat)
    requires k <= |s|
    ensures s[..k] + s[k..] == s
  {
  }

  lemma AfterFirst<T>(a: seq<T>, b: seq<T>)
    ensures (a + b)[|a|..] == b && (a + b)[..|a|] == a
  {
  }

  // Three parts with a separator between them sit where they are expected.
  lemma ThreeParts<T>(a: seq<T>, b: seq<T>, c: seq<T>, mark: T)
    ensures var s := a + [mark] + b + [mark] + c;
            && |s| == |a| + |b| + |c| + 2 && s[|a|] == mark && s[|a| + 1 + |b|] == mark
            && s[0..|a|] == a
            && s[|a| + 1..|a| + 1 + |b|] == b
            && s[|a| + |b| + 2..|a| + |b| + 2 + |c|] == c
  {
    var head := a + [mark];
    var front := head + b;
    AfterFirst(a, [mark]);
    AfterFirst(head, b);
    AfterFirst(front, [mark]);
    AfterFirst(front + [mark], c);
  }

  // The last element of one arrangement, found and taken out of another.
  lemma TakenOut<T>(a: seq<T>, b: seq<T>) returns (k: nat)
    requires multiset(a) == multiset(b) && a != []
    ensures k < |b| && b[k] == a[|a| - 1]
    ensures multiset(a[..|a| - 1]) == multiset(b[..k] + b[k + 1..])
    ensures b == b[..k] + [b[k]] + b[k + 1..]
  {
    var front, last := a[..|a| - 1], a[|a| - 1];
    assert a == front + [last];
    assert last in multiset(b);
    k :| 0 <= k < |b| && b[k] == last;
    var left, right := b[..k], b[k + 1..];
    Rejoined(b, k);
    TakenApart(left, last, right);
    assert b == left + [last] + right;
    Cancelled(multiset(front), multiset(left + right), last);
  }

  lemma TakenApart<T>(left: seq<T>, x: T, right: seq<T>)
    ensures multiset(left + [x] + right) == multiset(left + right) + multiset{x}
  {
    assert multiset(left + right) == multiset(left) + multiset(right);
    assert multiset(left + [x] + right) == multiset(left) + multiset{x} + multiset(right);
  }

  lemma Cancelled<T>(a: multiset<T>, b: multiset<T>, x: T)
    requires a + multiset{x} == b + multiset{x}
    ensures a == b
  {
    assert a == (a + multiset{x}) - multiset{x};
    assert b == (b + multiset{x}) - multiset{x};
  }

  lemma Rejoined<T>(s: seq<T>, k: nat)
    requires k < |s|
    ensures s == s[..k] + [s[k]] + s[k + 1..]
  {
  }
}
