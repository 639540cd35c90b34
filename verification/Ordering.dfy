/**
 * The order of strings (by code unit) and a stable sort by any total preorder.
 */
module Ordering {

  // ------------------------------------------------------------------ strings

  predicate StringLe(a: string, b: string) {
    a == [] || (b != [] && (a[0] < b[0] || (a[0] == b[0] && StringLe(a[1..], b[1..]))))
  }

  /** A prefix comes first, and otherwise the first difference decides. */
  lemma {:induction false} StringLeIff(a: string, b: string)
    ensures StringLe(a, b) <==> a <= b || exists k :: 0 <= k < |a| && k < |b| && FirstDifference(a, b, k) && a[k] < b[k]
  {
    if a != [] && b != [] && a[0] == b[0] {
      var a', b' := a[1..], b[1..];
      StringLeIff(a', b');
      assert a == [a[0]] + a' && b == [b[0]] + b';
      if k :| 0 <= k < |a'| && k < |b'| && FirstDifference(a', b', k) && a'[k] < b'[k] {
        DifferenceOfTails(a, b, k);
      }
      if k :| 0 <= k < |a| && k < |b| && FirstDifference(a, b, k) && a[k] < b[k] {
        DifferenceOfTails(a, b, k - 1);
      }
    } else if a != [] && b != [] {
      assert a[0] < b[0] ==> FirstDifference(a, b, 0);
    }
  }

  lemma DifferenceOfTails(a: string, b: string, k: nat)
    requires k + 1 < |a| && k + 1 < |b| && a[0] == b[0]
    ensures FirstDifference(a, b, k + 1) <==> FirstDifference(a[1..], b[1..], k)
  {
    assert a[..k + 1] == [a[0]] + a[1..][..k] && b[..k + 1] == [b[0]] + b[1..][..k];
  }

  predicate FirstDifference(a: string, b: string, k: nat)
    requires k < |a| && k < |b|
  {
    a[..k] == b[..k] && a[k] != b[k]
  }

  lemma {:induction false} StringLeReflexive(a: string)
    ensures StringLe(a, a)
  {
    if a != [] { StringLeReflexive(a[1..]); }
  }

  lemma {:induction false} StringLeTotal(a: string, b: string)
    ensures StringLe(a, b) || StringLe(b, a)
    ensures StringLe(a, b) && StringLe(b, a) ==> a == b
  {
    if a != [] && b != [] && a[0] == b[0] {
      StringLeTotal(a[1..], b[1..]);
      assert a == [a[0]] + a[1..] && b == [b[0]] + b[1..];
    }
  }

  lemma {:induction false} StringLeTransitive(a: string, b: string, c: string)
    requires StringLe(a, b) && StringLe(b, c)
    ensures StringLe(a, c)
    decreases |a|
  {
    if a != [] && a[0] == b[0] && b[0] == c[0] { StringLeTransitive(a[1..], b[1..], c[1..]); }
  }

  // --------------------------------------------------------------------- sort

  ghost predicate TotalPreorder<T(!new)>(le: (T, T) -> bool) {
    && (forall a, b :: le(a, b) || le(b, a))
    && (forall a, b, c :: le(a, b) && le(b, c) ==> le(a, c))
  }

  ghost predicate Ordered<T>(le: (T, T) -> bool, s: seq<T>) {
    forall i, j :: 0 <= i < j < |s| ==> le(s[i], s[j])
  }

  /** Puts an element behind every element that is not after it. */
  function Insert<T>(le: (T, T) -> bool, s: seq<T>, x: T): seq<T> {
    if s == [] || le(s[|s| - 1], x) then s + [x] else Insert(le, s[..|s| - 1], x) + [s[|s| - 1]]
  }

  function Sort<T>(le: (T, T) -> bool, s: seq<T>): seq<T> {
    if s == [] then [] else Insert(le, Sort(le, s[..|s| - 1]), s[|s| - 1])
  }

  lemma {:induction false} InsertKeepsElements<T>(le: (T, T) -> bool, s: seq<T>, x: T)
    ensures multiset(Insert(le, s, x)) == multiset(s) + multiset{x}
    decreases |s|
  {
    if s != [] {
      InsertKeepsElements(le, s[..|s| - 1], x);
      assert s == s[..|s| - 1] + [s[|s| - 1]];
    }
  }

  lemma {:induction false} InsertOrders<T(!new)>(le: (T, T) -> bool, s: seq<T>, x: T)
    requires TotalPreorder(le) && Ordered(le, s)
    ensures Ordered(le, Insert(le, s, x))
    decreases |s|
  {
    if s != [] && !le(s[|s| - 1], x) {
      var init, last := s[..|s| - 1], s[|s| - 1];
      var inserted := Insert(le, init, x);
      InsertOrders(le, init, x);
      InsertKeepsElements(le, init, x);
      forall i | 0 <= i < |inserted| ensures le(inserted[i], last) {
        assert inserted[i] in multiset(inserted);
        assert inserted[i] == x || inserted[i] in init;
      }
    }
  }

  /** Sorting orders a list and neither loses nor duplicates an element. */
  lemma {:induction false} SortOrders<T(!new)>(le: (T, T) -> bool, s: seq<T>)
    requires TotalPreorder(le)
    ensures Ordered(le, Sort(le, s)) && multiset(Sort(le, s)) == multiset(s)
    decreases |s|
  {
    if s != [] {
      SortOrders(le, s[..|s| - 1]);
      InsertOrders(le, Sort(le, s[..|s| - 1]), s[|s| - 1]);
      InsertKeepsElements(le, Sort(le, s[..|s| - 1]), s[|s| - 1]);
      assert s == s[..|s| - 1] + [s[|s| - 1]];
    }
  }

  lemma SortKeepsMembers<T(!new)>(le: (T, T) -> bool, s: seq<T>, x: T)
    requires TotalPreorder(le)
    ensures x in Sort(le, s) <==> x in s
  {
    SortOrders(le, s);
    assert x in Sort(le, s) <==> x in multiset(Sort(le, s));
    assert x in s <==> x in multiset(s);
  }

  /** The elements that neither precede nor follow `x`. */
  function Peers<T>(le: (T, T) -> bool, s: seq<T>, x: T): seq<T> {
    if s == [] then []
    else
      var before, last := Peers(le, s[..|s| - 1], x), s[|s| - 1];
      if le(last, x) && le(x, last) then before + [last] else before
  }

  lemma {:induction false} InsertIsStable<T(!new)>(le: (T, T) -> bool, s: seq<T>, y: T, x: T)
    requires TotalPreorder(le)
    ensures Peers(le, Insert(le, s, y), x) == Peers(le, s + [y], x)
    decreases |s|
  {
    assert (s + [y])[..|s|] == s;
    if s != [] && !le(s[|s| - 1], y) {
      var init, last := s[..|s| - 1], s[|s| - 1];
      InsertIsStable(le, init, y, x);
      assert (init + [y])[..|init|] == init;
      assert Insert(le, s, y)[..|Insert(le, init, y)|] == Insert(le, init, y);
    }
  }

  ghost predicate SamePeers<T(!new)>(le: (T, T) -> bool, a: seq<T>, b: seq<T>) {
    forall x :: Peers(le, a, x) == Peers(le, b, x)
  }

  lemma {:induction false} SortKeepsPeers<T(!new)>(le: (T, T) -> bool, s: seq<T>, x: T)
    requires TotalPreorder(le)
    ensures Peers(le, Sort(le, s), x) == Peers(le, s, x)
    decreases |s|
  {
    if s != [] {
      var init, last := s[..|s| - 1], s[|s| - 1];
      SortKeepsPeers(le, init, x);
      InsertIsStable(le, Sort(le, init), last, x);
      assert (Sort(le, init) + [last])[..|Sort(le, init)|] == Sort(le, init);
    }
  }

  /** Elements of one rank keep their order. */
  lemma SortIsStable<T(!new)>(le: (T, T) -> bool, s: seq<T>)
    requires TotalPreorder(le)
    ensures SamePeers(le, Sort(le, s), s)
  {
    forall x ensures Peers(le, Sort(le, s), x) == Peers(le, s, x) { SortKeepsPeers(le, s, x); }
  }
}
