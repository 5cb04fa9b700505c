/**
 Sorting slices by a key field and comparing them. Go's sort.Slice is not stable: elements with equal
 keys may end up in either order, so a sort is any sorted permutation.
 */
module Slices {
  import opened Text

  /** A sort key: an integer or a string field. */
  datatype Key = Number(n: int) | Str(s: string)

  /** An element of a compared slice: its sort key and everything else. */
  datatype Element = Element(key: Key, rest: string)

  predicate KeyLess(a: Key, b: Key) {
    match (a, b)
    case (Number(m), Number(n)) => m < n
    case (Str(s), Str(t)) => LexLess(s, t)
    case (Number(_), Str(_)) => true
    case (Str(_), Number(_)) => false
  }

  /** `x` may come before `y`. */
  predicate MayPrecede(x: Element, y: Element) {
    !KeyLess(y.key, x.key)
  }

  lemma OrderIsTotal(x: Element, y: Element)
    ensures MayPrecede(x, y) || MayPrecede(y, x)
    ensures MayPrecede(x, y) && MayPrecede(y, x) <==> x.key == y.key
  {
    if x.key.Str? && y.key.Str? {
      LexOrder(x.key.s, y.key.s);
    }
  }

  lemma OrderIsTransitive(x: Element, y: Element, z: Element)
    requires MayPrecede(x, y) && MayPrecede(y, z)
    ensures MayPrecede(x, z)
  {
    OrderIsTotal(x, y);
    OrderIsTotal(y, z);
    if x.key.Str? && y.key.Str? && z.key.Str? && x.key != y.key && y.key != z.key {
      LexOrder(x.key.s, y.key.s);
      LexOrder(y.key.s, z.key.s);
      LexTransitive(x.key.s, y.key.s, z.key.s);
      LexOrder(x.key.s, z.key.s);
    }
  }

  ghost predicate Sorted(s: seq<Element>) {
    forall i, j :: 0 <= i < j < |s| ==> MayPrecede(s[i], s[j])
  }

  ghost predicate IsSortOf(r: seq<Element>, s: seq<Element>) {
    Sorted(r) && multiset(r) == multiset(s)
  }

  /** Elements with equal keys are equal: keys that are unique within a slice see to it. */
  ghost predicate KeysDetermine(elements: multiset<Element>) {
    forall x, y :: x in elements && y in elements && x.key == y.key ==> x == y
  }

  lemma SwapKeepsElements(s: seq<Element>, i: nat, j: nat)
    requires i < j < |s|
    ensures multiset(s[i := s[j]][j := s[i]]) == multiset(s)
  {
  }

  /** With such keys there is only one way to sort. */
  lemma {:induction false} SortIsUnique(a: seq<Element>, b: seq<Element>)
    requires Sorted(a) && Sorted(b) && multiset(a) == multiset(b)
    requires KeysDetermine(multiset(a))
    ensures a == b
  {
    SizesAgree(a, b);
    if a != [] {
      HeadsAgree(a, b);
      TailsAgree(a, b);
      SortIsUnique(a[1..], b[1..]);
      assert a == [a[0]] + a[1..] && b == [b[0]] + b[1..];
    }
  }

  lemma TailsAgree(a: seq<Element>, b: seq<Element>)
    requires Sorted(a) && Sorted(b) && multiset(a) == multiset(b) && KeysDetermine(multiset(a))
    requires a != [] && b != [] && a[0] == b[0]
    ensures Sorted(a[1..]) && Sorted(b[1..]) && multiset(a[1..]) == multiset(b[1..])
    ensures KeysDetermine(multiset(a[1..]))
  {
    TailElements(a);
    TailElements(b);
  }

  lemma TailElements(s: seq<Element>)
    requires s != []
    ensures multiset(s[1..]) == multiset(s) - multiset{s[0]}
  {
    assert s == [s[0]] + s[1..];
  }

  lemma HeadIsFirst(a: seq<Element>, x: Element)
    requires Sorted(a) && x in multiset(a)
    ensures a != [] && MayPrecede(a[0], x)
  {
    assert x in a;
    OrderIsTotal(a[0], a[0]);
  }

  lemma HeadsAgree(a: seq<Element>, b: seq<Element>)
    requires Sorted(a) && Sorted(b) && multiset(a) == multiset(b) && a != []  && b != []
    requires KeysDetermine(multiset(a))
    ensures a[0] == b[0]
  {
    assert a[0] in multiset(a) && b[0] in multiset(b);
    HeadIsFirst(a, b[0]);
    HeadIsFirst(b, a[0]);
    OrderIsTotal(a[0], b[0]);
  }

  /** Sorting as a function, to show that a sort always exists. */
  function Insert(x: Element, s: seq<Element>): seq<Element> {
    if s == [] || MayPrecede(x, s[0]) then [x] + s else [s[0]] + Insert(x, s[1..])
  }

  lemma {:induction false} InsertSorts(x: Element, s: seq<Element>)
    requires Sorted(s)
    ensures IsSortOf(Insert(x, s), [x] + s)
  {
    if s == [] {
    } else if MayPrecede(x, s[0]) {
      forall j | 0 <= j < |s| ensures MayPrecede(x, s[j]) {
        if j > 0 {
          OrderIsTransitive(x, s[0], s[j]);
        }
      }
    } else {
      InsertSorts(x, s[1..]);
      OrderIsTotal(x, s[0]);
      HeadComesFirst(s, x, Insert(x, s[1..]));
      assert s == [s[0]] + s[1..];
    }
  }

  lemma HeadComesFirst(s: seq<Element>, x: Element, r: seq<Element>)
    requires s != [] && Sorted(s) && MayPrecede(s[0], x) && IsSortOf(r, [x] + s[1..])
    ensures Sorted([s[0]] + r)
  {
    forall j | 0 <= j < |r| ensures MayPrecede(s[0], r[j]) {
      assert r[j] in multiset([x] + s[1..]);
      assert r[j] in [x] + s[1..];
    }
  }

  lemma {:induction false} SortExists(s: seq<Element>) returns (r: seq<Element>)
    ensures IsSortOf(r, s)
  {
    if s == [] {
      r := [];
    } else {
      var rest := SortExists(s[1..]);
      r := Insert(s[0], rest);
      InsertSorts(s[0], rest);
      assert s == [s[0]] + s[1..];
    }
  }

  /** Between two equal keys of a sorted slice all keys are equal. */
  lemma KeysBetween(s: seq<Element>, i: nat, k: nat, j: nat)
    requires Sorted(s) && i < k < j < |s| && s[i].key == s[j].key
    ensures s[k].key == s[i].key
  {
    OrderIsTotal(s[i], s[k]);
  }

  lemma {:induction false} AdjacentPair(s: seq<Element>, i: nat, j: nat) returns (p: nat)
    requires Sorted(s) && i < j < |s| && s[i].key == s[j].key && s[i] != s[j]
    ensures p + 1 < |s| && s[p].key == s[p + 1].key && s[p] != s[p + 1]
    decreases j - i
  {
    if i + 1 < j {
      KeysBetween(s, i, i + 1, j);
      if s[i] == s[i + 1] {
        p := AdjacentPair(s, i + 1, j);
      } else {
        p := i;
      }
    } else {
      p := i;
    }
  }

  /** A slice can be sorted in only one way exactly when its keys determine its elements. */
  lemma UniqueSortIffKeysDetermine(s: seq<Element>)
    ensures KeysDetermine(multiset(s)) <==> forall a, b :: IsSortOf(a, s) && IsSortOf(b, s) ==> a == b
  {
    if KeysDetermine(multiset(s)) {
      forall a, b | IsSortOf(a, s) && IsSortOf(b, s) ensures a == b {
        SortIsUnique(a, b);
      }
    } else {
      var a, b := TwoSorts(s);
    }
  }

  lemma TwoSorts(s: seq<Element>) returns (a: seq<Element>, b: seq<Element>)
    requires !KeysDetermine(multiset(s))
    ensures IsSortOf(a, s) && IsSortOf(b, s) && a != b
  {
    a := SortExists(s);
    var i, j := SharedKey(a);
    var p := AdjacentPair(a, i, j);
    b := SwapAdjacent(a, p);
  }

  lemma SharedKey(a: seq<Element>) returns (i: nat, j: nat)
    requires !KeysDetermine(multiset(a))
    ensures i < j < |a| && a[i].key == a[j].key && a[i] != a[j]
  {
    var x, y :| x in multiset(a) && y in multiset(a) && x.key == y.key && x != y;
    assert x in a && y in a;
    i :| i < |a| && a[i] == x;
    j :| j < |a| && a[j] == y;
    if j < i {
      i, j := j, i;
    }
  }

  lemma SwapAdjacent(a: seq<Element>, p: nat) returns (b: seq<Element>)
    requires Sorted(a) && p + 1 < |a| && a[p].key == a[p + 1].key && a[p] != a[p + 1]
    ensures IsSortOf(b, a) && a != b
  {
    b := a[p := a[p + 1]][p + 1 := a[p]];
    SwapKeepsElements(a, p, p + 1);
    SameKeysSorted(a, b);
    assert a[p] != b[p];
  }

  lemma SameKeysSorted(a: seq<Element>, b: seq<Element>)
    requires Sorted(a) && |a| == |b| && forall k :: 0 <= k < |a| ==> b[k].key == a[k].key
    ensures Sorted(b)
  {
    forall i, j | 0 <= i < j < |b| ensures MayPrecede(b[i], b[j]) {
      assert MayPrecede(a[i], a[j]);
    }
  }

  /** The first `n + 1` elements are in order, except that element `j` may be too far up. */
  ghost predicate Sinking(s: seq<Element>, n: nat, j: nat) {
    n < |s| && j <= n && forall p, q :: 0 <= p < q <= n && q != j ==> MayPrecede(s[p], s[q])
  }

  lemma SinkStep(s: seq<Element>, n: nat, j: nat)
    requires Sinking(s, n, j) && j > 0 && KeyLess(s[j].key, s[j - 1].key)
    ensures Sinking(s[j - 1 := s[j]][j := s[j - 1]], n, j - 1)
  {
    OrderIsTotal(s[j - 1], s[j]);
  }

  lemma SinkEnds(s: seq<Element>, n: nat, j: nat)
    requires Sinking(s, n, j) && (j == 0 || MayPrecede(s[j - 1], s[j]))
    ensures Sorted(s[..n + 1])
  {
    forall p | 0 <= p < j ensures MayPrecede(s[p], s[j]) {
      if p < j - 1 {
        OrderIsTransitive(s[p], s[j - 1], s[j]);
      }
    }
  }

  /** Moves element `n` down to its place among the sorted ones before it. */
  method Sink(a: array<Element>, n: nat)
    requires n < a.Length && Sorted(a[..n])
    modifies a
    ensures Sorted(a[..n + 1]) && multiset(a[..]) == multiset(old(a[..]))
  {
    var j: nat := n;
    while j > 0 && KeyLess(a[j].key, a[j - 1].key)
      invariant Sinking(a[..], n, j)
      invariant multiset(a[..]) == multiset(old(a[..]))
    {
      ghost var before := a[..];
      SinkStep(before, n, j);
      SwapKeepsElements(before, j - 1, j);
      a[j - 1], a[j] := a[j], a[j - 1];
      assert a[..] == before[j - 1 := before[j]][j := before[j - 1]];
      j := j - 1;
    }
    SinkEnds(a[..], n, j);
    assert a[..n + 1] == a[..][..n + 1];
  }

  /** SortSlice: sorts in place. */
  method SortSlice(a: array<Element>)
    modifies a
    ensures IsSortOf(a[..], old(a[..]))
  {
    for n := 0 to a.Length
      invariant Sorted(a[..n]) && multiset(a[..]) == multiset(old(a[..]))
    {
      Sink(a, n);
    }
    assert a[..a.Length] == a[..];
  }

  /** sortAndCompareSlices: true when the slices differ; both end up sorted if their lengths agree. */
  method SortAndCompareSlices(a: array<Element>, b: array<Element>) returns (differ: bool)
    requires a != b
    modifies a, b
    ensures !differ ==> multiset(old(a[..])) == multiset(old(b[..]))
    ensures KeysDetermine(multiset(old(a[..]))) ==> (differ <==> multiset(old(a[..])) != multiset(old(b[..])))
    ensures if a.Length == b.Length then IsSortOf(a[..], old(a[..])) && IsSortOf(b[..], old(b[..]))
            else a[..] == old(a[..]) && b[..] == old(b[..])
  {
    if a.Length != b.Length {
      SizesAgree(a[..], b[..]);
      return true;
    }
    SortSlice(a);
    SortSlice(b);
    differ := a[..] != b[..];
    if multiset(old(a[..])) == multiset(old(b[..])) && KeysDetermine(multiset(old(a[..]))) {
      SortIsUnique(a[..], b[..]);
    }
  }

  lemma SizesAgree(a: seq<Element>, b: seq<Element>)
    ensures multiset(a) == multiset(b) ==> |a| == |b|
  {
    assert |multiset(a)| == |a| && |multiset(b)| == |b|;
  }

  /** The comparison as it is made of two fields that hold slices. */
  method CompareSlices(a: seq<Element>, b: seq<Element>) returns (differ: bool, a1: seq<Element>, b1: seq<Element>)
    ensures multiset(a1) == multiset(a) && multiset(b1) == multiset(b)
    ensures !differ ==> multiset(a) == multiset(b)
    ensures KeysDetermine(multiset(a)) ==> (differ <==> multiset(a) != multiset(b))
  {
    var x := new Element[|a|](i requires 0 <= i < |a| => a[i]);
    var y := new Element[|b|](i requires 0 <= i < |b| => b[i]);
    assert x[..] == a && y[..] == b;
    differ := SortAndCompareSlices(x, y);
    a1, b1 := x[..], y[..];
  }

  method SortedSlice(s: seq<Element>) returns (r: seq<Element>)
    ensures IsSortOf(r, s)
  {
    var a := new Element[|s|](i requires 0 <= i < |s| => s[i]);
    assert a[..] == s;
    SortSlice(a);
    r := a[..];
  }
}
