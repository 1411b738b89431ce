/**
 * Go's ordering of strings and sort.Strings.
 *
 * Go compares strings byte by byte; on UTF-8 that is the order of the code
 * points, so `Less` compares the characters of a Dafny string. sort.Strings
 * is modelled by an insertion sort: whatever algorithm Go uses, the sorted
 * permutation of a sequence of strings is unique (SortedUnique), so only the
 * result matters.
 */
module GoSort {

  /** a < b on Go strings */
  predicate Less(a: string, b: string)
  {
    if |a| == 0 then |b| > 0
    else if |b| == 0 then false
    else if a[0] != b[0] then a[0] < b[0]
    else Less(a[1..], b[1..])
  }

  lemma {:induction false} LessIrreflexive(a: string)
    ensures !Less(a, a)
  {
    if |a| > 0 {
      LessIrreflexive(a[1..]);
    }
  }

  lemma {:induction false} LessAsymmetric(a: string, b: string)
    requires Less(a, b)
    ensures !Less(b, a)
  {
    if |a| > 0 && |b| > 0 && a[0] == b[0] {
      LessAsymmetric(a[1..], b[1..]);
    }
  }

  lemma {:induction false} LessTransitive(a: string, b: string, c: string)
    requires Less(a, b) && Less(b, c)
    ensures Less(a, c)
  {
    if |a| > 0 && a[0] == b[0] && b[0] == c[0] {
      LessTransitive(a[1..], b[1..], c[1..]);
    }
  }

  lemma {:induction false} LessTotal(a: string, b: string)
    ensures a == b || Less(a, b) || Less(b, a)
  {
    if |a| > 0 && |b| > 0 && a[0] == b[0] {
      LessTotal(a[1..], b[1..]);
      if a[1..] == b[1..] {
        assert a == [a[0]] + a[1..] && b == [b[0]] + b[1..];
      }
    }
  }

  /** Non-decreasing in Go's order: what sort.Strings leaves behind. */
  predicate Sorted(s: seq<string>)
  {
    forall i, j :: 0 <= i < j < |s| ==> !Less(s[j], s[i])
  }

  /** x is at most every element of s */
  predicate AtMostAll(x: string, s: seq<string>)
  {
    forall k :: 0 <= k < |s| ==> !Less(s[k], x)
  }

  function Insert(x: string, s: seq<string>): seq<string>
  {
    if s == [] || !Less(s[0], x) then [x] + s
    else [s[0]] + Insert(x, s[1..])
  }

  /** Go's a <= b is a total preorder; in particular it is transitive. */
  lemma LeTransitive(a: string, b: string, c: string)
    requires !Less(b, a) && !Less(c, b)
    ensures !Less(c, a)
  {
    LessTotal(a, b);
    if Less(c, a) && Less(a, b) {
      LessTransitive(c, a, b);
    }
  }

  lemma {:induction false} InsertKeeps(x: string, s: seq<string>)
    requires Sorted(s)
    ensures Sorted(Insert(x, s))
    ensures multiset(Insert(x, s)) == multiset(s) + multiset{x}
  {
    if s == [] || !Less(s[0], x) {
      InsertInFront(x, s);
    } else {
      InsertKeeps(x, s[1..]);
      InsertBehindHead(x, s, Insert(x, s[1..]));
      assert s == [s[0]] + s[1..];
    }
  }

  /** x at most the head of a sorted s goes in front. */
  lemma InsertInFront(x: string, s: seq<string>)
    requires Sorted(s) && (s == [] || !Less(s[0], x))
    ensures Sorted([x] + s)
  {
    forall k | 0 <= k < |s|
      ensures !Less(s[k], x)
    {
      SortedHeadAtMost(s, k);
      LeTransitive(x, s[0], s[k]);
    }
    ConsSorted(x, s);
  }

  /** x above the head of a sorted s goes into the tail, behind the head. */
  lemma InsertBehindHead(x: string, s: seq<string>, t: seq<string>)
    requires Sorted(s) && |s| > 0 && Less(s[0], x)
    requires Sorted(t) && multiset(t) == multiset(s[1..]) + multiset{x}
    ensures Sorted([s[0]] + t)
  {
    LessAsymmetric(s[0], x);
    assert AtMostAll(s[0], s[1..] + [x]);
    SameElementsAtMost(s[0], s[1..] + [x], t);
    ConsSorted(s[0], t);
  }

  /** A head at most every element of a sorted tail gives a sorted sequence. */
  lemma ConsSorted(h: string, t: seq<string>)
    requires Sorted(t) && AtMostAll(h, t)
    ensures Sorted([h] + t)
  {
    var r := [h] + t;
    forall i, j | 0 <= i < j < |r|
      ensures !Less(r[j], r[i])
    {
      assert r[j] == t[j - 1];
      if i > 0 {
        assert r[i] == t[i - 1];
      }
    }
  }

  /** Being at most every element depends only on the elements. */
  lemma SameElementsAtMost(h: string, u: seq<string>, t: seq<string>)
    requires AtMostAll(h, u) && multiset(t) == multiset(u)
    ensures AtMostAll(h, t)
  {
    forall k | 0 <= k < |t|
      ensures !Less(t[k], h)
    {
      assert t[k] in multiset(u);
      var m :| 0 <= m < |u| && u[m] == t[k];
    }
  }

  /** sort.Strings: a sorted permutation of its input. */
  function Sort(s: seq<string>): (r: seq<string>)
    ensures Sorted(r) && multiset(r) == multiset(s)
  {
    if s == [] then []
    else
      var t := Sort(s[1..]);
      InsertKeeps(s[0], t);
      assert s == [s[0]] + s[1..];
      Insert(s[0], t)
  }

  lemma SortedHeadAtMost(a: seq<string>, k: int)
    requires Sorted(a) && 0 <= k < |a|
    ensures !Less(a[k], a[0])
  {
    if k == 0 {
      LessIrreflexive(a[0]);
    }
  }

  /** Two sorted sequences holding the same strings are the same sequence. */
  lemma {:induction false} SortedUnique(a: seq<string>, b: seq<string>)
    requires Sorted(a) && Sorted(b) && multiset(a) == multiset(b)
    ensures a == b
    decreases |a|
  {
    assert |a| == |multiset(a)| == |multiset(b)| == |b|;
    if a != [] {
      SortedSameHead(a, b);
      TailMultiset(a);
      TailMultiset(b);
      SortedUnique(a[1..], b[1..]);
      assert a == [a[0]] + a[1..] && b == [b[0]] + b[1..];
    }
  }

  /** Two non-empty sorted sequences holding the same strings start alike. */
  lemma SortedSameHead(a: seq<string>, b: seq<string>)
    requires Sorted(a) && Sorted(b) && multiset(a) == multiset(b) && |a| > 0 && |b| > 0
    ensures a[0] == b[0]
  {
    assert a[0] in multiset(b);
    assert b[0] in multiset(a);
    var i :| 0 <= i < |b| && b[i] == a[0];
    var j :| 0 <= j < |a| && a[j] == b[0];
    SortedHeadAtMost(b, i);
    SortedHeadAtMost(a, j);
    LessTotal(a[0], b[0]);
  }

  lemma TailMultiset(a: seq<string>)
    requires |a| > 0
    ensures multiset(a[1..]) == multiset(a) - multiset{a[0]}
  {
    assert a == [a[0]] + a[1..];
  }

  /** Sorting a sorted sequence changes nothing, so sorting twice is sorting once. */
  lemma SortOfSorted(s: seq<string>)
    requires Sorted(s)
    ensures Sort(s) == s
  {
    SortedUnique(Sort(s), s);
  }

  /** The result of sort.Strings depends only on the multiset of its input. */
  lemma SortByContents(a: seq<string>, b: seq<string>)
    requires multiset(a) == multiset(b)
    ensures Sort(a) == Sort(b)
  {
    SortedUnique(Sort(a), Sort(b));
  }

  /** Some listing of the strings of a finite set, each once (Go's map iteration order is unspecified). */
  ghost function Enumerate(keys: set<string>): (r: seq<string>)
    ensures multiset(r) == multiset(keys)
    decreases |keys|
  {
    if keys == {} then []
    else
      var x :| x in keys;
      assert multiset(keys) == multiset{x} + multiset(keys - {x});
      [x] + Enumerate(keys - {x})
  }

  /**
   * The keys of a Go map, collected by ranging over the map and then sorted
   * with sort.Strings: the same sequence whatever order the range produced.
   */
  ghost function SortedKeys(keys: set<string>): (r: seq<string>)
    ensures Sorted(r) && multiset(r) == multiset(keys)
  {
    Sort(Enumerate(keys))
  }

  /** Collecting the keys in any order and sorting them gives SortedKeys. */
  lemma SortAnyListing(listing: seq<string>, keys: set<string>)
    requires multiset(listing) == multiset(keys)
    ensures Sort(listing) == SortedKeys(keys)
  {
    SortedUnique(Sort(listing), SortedKeys(keys));
  }

  /** A sorted listing of a set has no repeated element. */
  lemma SetListingDistinct(r: seq<string>, keys: set<string>, i: int, j: int)
    requires multiset(r) == multiset(keys)
    requires 0 <= i < j < |r|
    ensures r[i] != r[j]
  {
    if r[i] == r[j] {
      RepeatedTwice(r, i, j);
      assert false;
    }
  }

  lemma RepeatedTwice(r: seq<string>, i: int, j: int)
    requires 0 <= i < j < |r| && r[i] == r[j]
    ensures multiset(r)[r[i]] >= 2
  {
    assert r == r[..j] + [r[j]] + r[j + 1..];
    assert r[..j][i] == r[i];
    assert multiset(r) == multiset(r[..j]) + multiset{r[j]} + multiset(r[j + 1..]);
  }

  /**
   * Comparing the sorted keys of an item with the sorted label list of its
   * metric is a set comparison that also demands the label list be free of
   * repetitions: the two agree exactly when the labels, counted with
   * multiplicity, are the keys.
   */
  lemma SortedKeysMatch(keys: set<string>, labels: seq<string>)
    ensures SortedKeys(keys) == Sort(labels) <==> multiset(labels) == multiset(keys)
  {
    if multiset(labels) == multiset(keys) {
      SortAnyListing(labels, keys);
    }
  }
}
