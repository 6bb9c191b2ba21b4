/**
 * The java.util.Comparator contract and Collections.sort, which the renderer
 * uses to put the atoms of a molecule into painting order.
 *
 * Collections.sort is a stable sort. For a comparator that keeps the
 * Comparator contract every stable sort returns the same list
 * (StableSortUnique), so the sort is modelled here by insertion sort: each
 * element is placed after every element already sorted that does not compare
 * greater than it.
 */
module Sorting {

  /** The sign of a three-way comparison result. */
  function Sgn(v: int): int {
    if v > 0 then 1 else if v < 0 then -1 else 0
  }

  /**
   * cmp applied to a and b. The contract below is written with it so that its
   * quantifiers fire only where a proof mentions Cmp, that is, in the few
   * lemmas right after it.
   */
  function Cmp<T>(cmp: (T, T) -> int, a: T, b: T): int {
    cmp(a, b)
  }

  /** The three requirements the Comparator contract puts on compare. */
  ghost predicate ValidComparator<T(!new)>(cmp: (T, T) -> int) {
    && (forall a, b :: Sgn(Cmp(cmp, a, b)) == -Sgn(Cmp(cmp, b, a)))
    && (forall a, b, c :: Cmp(cmp, a, b) > 0 && Cmp(cmp, b, c) > 0 ==> Cmp(cmp, a, c) > 0)
    && (forall a, b, c :: Cmp(cmp, a, b) == 0 ==> Sgn(Cmp(cmp, a, c)) == Sgn(Cmp(cmp, b, c)))
  }

  /** No element of s compares greater than an element after it. */
  ghost predicate SortedBy<T>(cmp: (T, T) -> int, s: seq<T>) {
    forall i, j :: 0 <= i < j < |s| ==> cmp(s[i], s[j]) <= 0
  }

  /** x occurs in s at some position before an occurrence of y. */
  ghost predicate Precedes<T>(s: seq<T>, x: T, y: T) {
    exists p, q :: 0 <= p < q < |s| && s[p] == x && s[q] == y
  }

  /** The elements of s that compare equal to a, in their order in s. */
  function Ties<T>(cmp: (T, T) -> int, s: seq<T>, a: T): (r: seq<T>)
    ensures |r| <= |s|
    decreases |s|
  {
    if |s| == 0 then []
    else (if cmp(s[0], a) == 0 then [s[0]] else []) + Ties(cmp, s[1..], a)
  }

  /** Ties(cmp, s, a) holds exactly the elements of s that compare equal to a. */
  lemma {:induction false} TiesMembers<T>(cmp: (T, T) -> int, s: seq<T>, a: T)
    ensures forall y :: y in Ties(cmp, s, a) ==> y in s && cmp(y, a) == 0
    ensures forall i :: 0 <= i < |s| && cmp(s[i], a) == 0 ==> s[i] in Ties(cmp, s, a)
    decreases |s|
  {
    if |s| > 0 {
      TiesMembers(cmp, s[1..], a);
      assert forall i :: 1 <= i < |s| ==> s[i] == s[1..][i - 1];
    }
  }

  /** r keeps, for every class of equal elements, the order those elements have in s. */
  ghost predicate StableFor<T(!new)>(cmp: (T, T) -> int, s: seq<T>, r: seq<T>) {
    forall a :: Ties(cmp, r, a) == Ties(cmp, s, a)
  }

  /** Places x into t before the first element that compares greater than x. */
  function Insert<T>(cmp: (T, T) -> int, t: seq<T>, x: T): (r: seq<T>)
    ensures |r| == |t| + 1
    ensures multiset(r) == multiset(t) + multiset{x}
    decreases |t|
  {
    if |t| == 0 then [x]
    else if cmp(t[0], x) > 0 then [x] + t
    else
      assert t == [t[0]] + t[1..];
      [t[0]] + Insert(cmp, t[1..], x)
  }

  /** Collections.sort, modelled as insertion sort: sorts s[..|s|-1], then inserts the last element. */
  function Sort<T>(cmp: (T, T) -> int, s: seq<T>): (r: seq<T>)
    ensures multiset(r) == multiset(s)
    ensures |r| == |s|
    decreases |s|
  {
    if |s| == 0 then []
    else
      var init, last := s[..|s| - 1], s[|s| - 1];
      assert s == init + [last];
      assert multiset(s) == multiset(init) + multiset{last};
      Insert(cmp, Sort(cmp, init), last)
  }

  // ---------------------------------------------------------------------
  // Consequences of the Comparator contract
  // ---------------------------------------------------------------------

  lemma Flip<T(!new)>(cmp: (T, T) -> int, a: T, b: T)
    requires ValidComparator(cmp)
    ensures cmp(a, b) > 0 <==> cmp(b, a) < 0
    ensures cmp(a, b) == 0 <==> cmp(b, a) == 0
    ensures cmp(a, a) == 0
  {
    assert Sgn(Cmp(cmp, a, b)) == -Sgn(Cmp(cmp, b, a));
    assert Sgn(Cmp(cmp, a, a)) == -Sgn(Cmp(cmp, a, a));
  }

  /** "Not greater than" is transitive under the contract. */
  lemma LeTrans<T(!new)>(cmp: (T, T) -> int, a: T, b: T, c: T)
    requires ValidComparator(cmp)
    requires cmp(a, b) <= 0 && cmp(b, c) <= 0
    ensures cmp(a, c) <= 0
  {
    Flip(cmp, a, b);
    Flip(cmp, b, c);
    Flip(cmp, a, c);
    if cmp(a, b) == 0 {
      assert Sgn(Cmp(cmp, a, c)) == Sgn(Cmp(cmp, b, c));
    } else if cmp(b, c) == 0 {
      assert Sgn(Cmp(cmp, b, a)) == Sgn(Cmp(cmp, c, a));
    } else {
      assert Cmp(cmp, c, b) > 0 && Cmp(cmp, b, a) > 0 ==> Cmp(cmp, c, a) > 0;
    }
  }

  /** "Less than" followed by "not greater than" is "less than". */
  lemma LtLeTrans<T(!new)>(cmp: (T, T) -> int, a: T, b: T, c: T)
    requires ValidComparator(cmp)
    requires cmp(a, b) < 0 && cmp(b, c) <= 0
    ensures cmp(a, c) < 0
  {
    Flip(cmp, a, b);
    Flip(cmp, b, c);
    Flip(cmp, a, c);
    if cmp(b, c) == 0 {
      assert Sgn(Cmp(cmp, b, a)) == Sgn(Cmp(cmp, c, a));
    } else {
      assert Cmp(cmp, c, b) > 0 && Cmp(cmp, b, a) > 0 ==> Cmp(cmp, c, a) > 0;
    }
  }

  // ---------------------------------------------------------------------
  // Ties
  // ---------------------------------------------------------------------

  lemma {:induction false} TiesAppend<T>(cmp: (T, T) -> int, s: seq<T>, t: seq<T>, a: T)
    ensures Ties(cmp, s + t, a) == Ties(cmp, s, a) + Ties(cmp, t, a)
    decreases |s|
  {
    if |s| == 0 {
      assert s + t == t;
    } else {
      var st := s + t;
      var head := if cmp(s[0], a) == 0 then [s[0]] else [];
      assert st[0] == s[0];
      assert st[1..] == s[1..] + t;
      assert Ties(cmp, st, a) == head + Ties(cmp, s[1..] + t, a);
      assert Ties(cmp, s, a) == head + Ties(cmp, s[1..], a);
      TiesAppend(cmp, s[1..], t, a);
    }
  }

  lemma {:induction false} TiesNone<T>(cmp: (T, T) -> int, s: seq<T>, a: T)
    requires forall i :: 0 <= i < |s| ==> cmp(s[i], a) != 0
    ensures Ties(cmp, s, a) == []
    decreases |s|
  {
    if |s| > 0 {
      assert forall i :: 0 <= i < |s[1..]| ==> s[1..][i] == s[i + 1];
      TiesNone(cmp, s[1..], a);
    }
  }

  /** Comparators that agree on which pairs are equal have the same ties. */
  lemma {:induction false} TiesSameZeros<T(!new)>(c1: (T, T) -> int, c2: (T, T) -> int, s: seq<T>, a: T)
    requires forall x, y :: c1(x, y) == 0 <==> c2(x, y) == 0
    ensures Ties(c1, s, a) == Ties(c2, s, a)
    decreases |s|
  {
    if |s| > 0 {
      TiesSameZeros(c1, c2, s[1..], a);
    }
  }

  /** Ties keep the relative order of two tied elements of s. */
  lemma {:induction false} TiesKeepOrder<T>(cmp: (T, T) -> int, s: seq<T>, a: T, x: T, y: T)
    requires Precedes(s, x, y)
    requires cmp(x, a) == 0 && cmp(y, a) == 0
    ensures Precedes(Ties(cmp, s, a), x, y)
    decreases |s|
  {
    var p, q :| 0 <= p < q < |s| && s[p] == x && s[q] == y;
    var head := if cmp(s[0], a) == 0 then [s[0]] else [];
    var rest := Ties(cmp, s[1..], a);
    assert Ties(cmp, s, a) == head + rest;
    if p == 0 {
      assert s[1..][q - 1] == y;
      TiesMembers(cmp, s[1..], a);
      assert y in rest;
      var k :| 0 <= k < |rest| && rest[k] == y;
      assert (head + rest)[0] == x && (head + rest)[k + 1] == y;
    } else {
      assert s[1..][p - 1] == x && s[1..][q - 1] == y;
      TiesKeepOrder(cmp, s[1..], a, x, y);
      var p', q' :| 0 <= p' < q' < |rest| && rest[p'] == x && rest[q'] == y;
      var h := |head|;
      assert (head + rest)[p' + h] == x && (head + rest)[q' + h] == y;
    }
  }

  /** Two elements in order among the ties of s are in that order in s. */
  lemma {:induction false} TiesOrderInSource<T>(cmp: (T, T) -> int, s: seq<T>, a: T, x: T, y: T)
    requires Precedes(Ties(cmp, s, a), x, y)
    ensures Precedes(s, x, y)
    decreases |s|
  {
    var head := if cmp(s[0], a) == 0 then [s[0]] else [];
    var rest := Ties(cmp, s[1..], a);
    var r := head + rest;
    assert Ties(cmp, s, a) == r;
    var p, q :| 0 <= p < q < |r| && r[p] == x && r[q] == y;
    var h := |head|;
    if p < h {
      assert x == s[0];
      assert rest[q - h] == y;
      TiesMembers(cmp, s[1..], a);
      assert y in s[1..];
      var k :| 0 <= k < |s[1..]| && s[1..][k] == y;
      assert s[0] == x && s[k + 1] == y;
    } else {
      assert rest[p - h] == x && rest[q - h] == y;
      TiesOrderInSource(cmp, s[1..], a, x, y);
      var p', q' :| 0 <= p' < q' < |s[1..]| && s[1..][p'] == x && s[1..][q'] == y;
      assert s[p' + 1] == x && s[q' + 1] == y;
    }
  }

  // ---------------------------------------------------------------------
  // Insertion
  // ---------------------------------------------------------------------

  /** Prepending an element that is below everything keeps a list sorted. */
  lemma SortedCons<T>(cmp: (T, T) -> int, h: T, s: seq<T>)
    requires SortedBy(cmp, s)
    requires forall k :: 0 <= k < |s| ==> cmp(h, s[k]) <= 0
    ensures SortedBy(cmp, [h] + s)
  {
    var r := [h] + s;
    forall i, j | 0 <= i < j < |r|
      ensures cmp(r[i], r[j]) <= 0
    {
      assert r[j] == s[j - 1];
      if i > 0 {
        assert r[i] == s[i - 1];
      }
    }
  }

  /** A lower bound of t and of x is a lower bound of Insert(cmp, t, x). */
  lemma InsertBound<T>(cmp: (T, T) -> int, b: T, t: seq<T>, x: T)
    requires cmp(b, x) <= 0
    requires forall k :: 0 <= k < |t| ==> cmp(b, t[k]) <= 0
    ensures forall j :: 0 <= j < |Insert(cmp, t, x)| ==> cmp(b, Insert(cmp, t, x)[j]) <= 0
  {
    var r := Insert(cmp, t, x);
    forall j | 0 <= j < |r|
      ensures cmp(b, r[j]) <= 0
    {
      var y := r[j];
      assert y in multiset(r);
      if y != x {
        assert y in multiset(t);
        var k :| 0 <= k < |t| && t[k] == y;
      }
    }
  }

  lemma {:induction false} InsertSorted<T(!new)>(cmp: (T, T) -> int, t: seq<T>, x: T)
    requires ValidComparator(cmp)
    requires SortedBy(cmp, t)
    ensures SortedBy(cmp, Insert(cmp, t, x))
    decreases |t|
  {
    if |t| == 0 {
    } else if cmp(t[0], x) > 0 {
      Flip(cmp, t[0], x);
      forall k | 0 <= k < |t|
        ensures cmp(x, t[k]) <= 0
      {
        if k > 0 {
          LeTrans(cmp, x, t[0], t[k]);
        }
      }
      SortedCons(cmp, x, t);
    } else {
      var tl := t[1..];
      InsertSorted(cmp, tl, x);
      assert forall k :: 0 <= k < |tl| ==> cmp(t[0], tl[k]) <= 0 by {
        forall k | 0 <= k < |tl|
          ensures cmp(t[0], tl[k]) <= 0
        {
          assert tl[k] == t[k + 1];
        }
      }
      InsertBound(cmp, t[0], tl, x);
      SortedCons(cmp, t[0], Insert(cmp, tl, x));
    }
  }

  /** Nothing in a sorted list whose head is above x ties with anything x ties with. */
  lemma AboveHasNoTies<T(!new)>(cmp: (T, T) -> int, t: seq<T>, x: T, a: T)
    requires ValidComparator(cmp)
    requires SortedBy(cmp, t)
    requires |t| > 0 && cmp(t[0], x) > 0
    requires cmp(x, a) == 0
    ensures Ties(cmp, t, a) == []
  {
    Flip(cmp, t[0], x);
    forall i | 0 <= i < |t|
      ensures cmp(t[i], a) != 0
    {
      if i > 0 {
        LtLeTrans(cmp, x, t[0], t[i]);
      }
      assert Sgn(Cmp(cmp, x, t[i])) == Sgn(Cmp(cmp, a, t[i]));
      Flip(cmp, t[i], a);
    }
    TiesNone(cmp, t, a);
  }

  /** Ties of a list built by putting h in front of rest. */
  lemma TiesCons<T>(cmp: (T, T) -> int, h: T, rest: seq<T>, a: T)
    ensures Ties(cmp, [h] + rest, a) == Ties(cmp, [h], a) + Ties(cmp, rest, a)
  {
    assert ([h] + rest)[0] == h && ([h] + rest)[1..] == rest;
    assert [h][1..] == [];
  }

  /** The tail of a sorted list is sorted. */
  lemma SortedTail<T>(cmp: (T, T) -> int, t: seq<T>)
    requires SortedBy(cmp, t) && |t| > 0
    ensures SortedBy(cmp, t[1..])
  {
    forall i, j | 0 <= i < j < |t| - 1
      ensures cmp(t[1..][i], t[1..][j]) <= 0
    {
      assert t[1..][i] == t[i + 1] && t[1..][j] == t[j + 1];
    }
  }

  /** Inserting x into a sorted list adds x after the ties of a that were there. */
  lemma {:induction false} InsertTies<T(!new)>(cmp: (T, T) -> int, t: seq<T>, x: T, a: T)
    requires ValidComparator(cmp)
    requires SortedBy(cmp, t)
    ensures Ties(cmp, Insert(cmp, t, x), a) == Ties(cmp, t, a) + Ties(cmp, [x], a)
    decreases |t|
  {
    if |t| == 0 {
      assert Insert(cmp, t, x) == [x];
      assert t + [x] == [x];
      TiesAppend(cmp, t, [x], a);
    } else if cmp(t[0], x) > 0 {
      assert Insert(cmp, t, x) == [x] + t;
      TiesCons(cmp, x, t, a);
      TiesSingleton(cmp, x, a);
      if cmp(x, a) == 0 {
        AboveHasNoTies(cmp, t, x, a);
      }
    } else {
      InsertTiesTail(cmp, t, x, a);
    }
  }

  /** The case of InsertTies where x goes after the head of t. */
  lemma {:induction false} InsertTiesTail<T(!new)>(cmp: (T, T) -> int, t: seq<T>, x: T, a: T)
    requires ValidComparator(cmp)
    requires SortedBy(cmp, t)
    requires |t| > 0 && cmp(t[0], x) <= 0
    ensures Ties(cmp, Insert(cmp, t, x), a) == Ties(cmp, t, a) + Ties(cmp, [x], a)
    decreases |t|, 0
  {
    var h, tl := t[0], t[1..];
    assert Insert(cmp, t, x) == [h] + Insert(cmp, tl, x);
    SortedTail(cmp, t);
    InsertTies(cmp, tl, x, a);
    TiesCons(cmp, h, Insert(cmp, tl, x), a);
    assert t == [h] + tl;
    TiesCons(cmp, h, tl, a);
  }

  /** The ties of a one-element list. */
  lemma TiesSingleton<T>(cmp: (T, T) -> int, x: T, a: T)
    ensures Ties(cmp, [x], a) == if cmp(x, a) == 0 then [x] else []
  {
    assert [x][1..] == [];
  }

  // ---------------------------------------------------------------------
  // What Sort promises
  // ---------------------------------------------------------------------

  /** The result is ordered by the comparator. */
  lemma {:induction false} SortSorted<T(!new)>(cmp: (T, T) -> int, s: seq<T>)
    requires ValidComparator(cmp)
    ensures SortedBy(cmp, Sort(cmp, s))
    decreases |s|
  {
    if |s| > 0 {
      SortSorted(cmp, s[..|s| - 1]);
      InsertSorted(cmp, Sort(cmp, s[..|s| - 1]), s[|s| - 1]);
    }
  }

  /** One step of Sort, seen through the ties of a. */
  lemma SortStepTies<T(!new)>(cmp: (T, T) -> int, init: seq<T>, x: T, a: T)
    requires ValidComparator(cmp)
    ensures Ties(cmp, Insert(cmp, Sort(cmp, init), x), a) == Ties(cmp, Sort(cmp, init), a) + Ties(cmp, [x], a)
  {
    SortSorted(cmp, init);
    InsertTies(cmp, Sort(cmp, init), x, a);
  }

  lemma {:induction false} SortTies<T(!new)>(cmp: (T, T) -> int, s: seq<T>, a: T)
    requires ValidComparator(cmp)
    ensures Ties(cmp, Sort(cmp, s), a) == Ties(cmp, s, a)
    decreases |s|
  {
    if |s| > 0 {
      var init, x := s[..|s| - 1], s[|s| - 1];
      assert Sort(cmp, s) == Insert(cmp, Sort(cmp, init), x);
      SortStepTies(cmp, init, x, a);
      SortTies(cmp, init, a);
      assert s == init + [x];
      TiesAppend(cmp, init, [x], a);
    }
  }

  /** The sort is stable: elements that compare equal keep their input order. */
  lemma SortStable<T(!new)>(cmp: (T, T) -> int, s: seq<T>)
    requires ValidComparator(cmp)
    ensures StableFor(cmp, s, Sort(cmp, s))
  {
    forall a
      ensures Ties(cmp, Sort(cmp, s), a) == Ties(cmp, s, a)
    {
      SortTies(cmp, s, a);
    }
  }

  /** Two tied elements that appear in one order in the input appear in that order in the output. */
  lemma SortKeepsTieOrder<T(!new)>(cmp: (T, T) -> int, s: seq<T>, x: T, y: T)
    requires ValidComparator(cmp)
    requires Precedes(s, x, y)
    requires cmp(x, y) == 0
    ensures Precedes(Sort(cmp, s), x, y)
  {
    Flip(cmp, x, y);
    TiesKeepOrder(cmp, s, x, x, y);
    SortTies(cmp, s, x);
    TiesOrderInSource(cmp, Sort(cmp, s), x, x, y);
  }

  /** Every element ties with itself, so the ties of a list's first element are not empty. */
  lemma TiesOfFirst<T(!new)>(cmp: (T, T) -> int, s: seq<T>)
    requires ValidComparator(cmp)
    requires |s| > 0
    ensures |Ties(cmp, s, s[0])| > 0
  {
    Flip(cmp, s[0], s[0]);
    TiesMembers(cmp, s, s[0]);
  }

  /**
   * A sorted list is determined by its ties: two lists sorted by a contract
   * comparator that have the same ties everywhere are equal. So every stable
   * sort, Collections.sort included, returns what Sort returns.
   */
  lemma {:induction false} StableSortUnique<T(!new)>(cmp: (T, T) -> int, r1: seq<T>, r2: seq<T>)
    requires ValidComparator(cmp)
    requires SortedBy(cmp, r1) && SortedBy(cmp, r2)
    requires forall a :: Ties(cmp, r1, a) == Ties(cmp, r2, a)
    ensures r1 == r2
    decreases |r1| + |r2|
  {
    if |r1| == 0 || |r2| == 0 {
      if |r1| > 0 {
        TiesOfFirst(cmp, r1);
        assert false;
      }
      if |r2| > 0 {
        TiesOfFirst(cmp, r2);
        assert false;
      }
    } else {
      var a, b := r1[0], r2[0];
      Flip(cmp, a, b);
      // a occurs in r2, so nothing in r2 is below it, and b is r2's first element
      Flip(cmp, a, a);
      Flip(cmp, b, b);
      TiesMembers(cmp, r1, a);
      TiesMembers(cmp, r2, a);
      TiesMembers(cmp, r1, b);
      TiesMembers(cmp, r2, b);
      assert a in Ties(cmp, r1, a);
      assert a in r2;
      assert cmp(b, a) <= 0;
      assert b in Ties(cmp, r2, b);
      assert b in r1;
      assert cmp(a, b) <= 0;
      assert cmp(a, b) == 0;
      assert Ties(cmp, r1, a) == [a] + Ties(cmp, r1[1..], a);
      assert Ties(cmp, r2, a) == [b] + Ties(cmp, r2[1..], a);
      assert a == b;
      forall c
        ensures Ties(cmp, r1[1..], c) == Ties(cmp, r2[1..], c)
      {
        var head := if cmp(a, c) == 0 then [a] else [];
        assert Ties(cmp, r1, c) == head + Ties(cmp, r1[1..], c);
        assert Ties(cmp, r2, c) == head + Ties(cmp, r2[1..], c);
        assert Ties(cmp, r1[1..], c) == Ties(cmp, r1, c)[|head|..];
        assert Ties(cmp, r2[1..], c) == Ties(cmp, r2, c)[|head|..];
      }
      StableSortUnique(cmp, r1[1..], r2[1..]);
      assert r1 == [a] + r1[1..] && r2 == [b] + r2[1..];
    }
  }

  /** Any sorted, stable rearrangement of s is Sort(cmp, s). */
  lemma SortIsTheStableSort<T(!new)>(cmp: (T, T) -> int, s: seq<T>, r: seq<T>)
    requires ValidComparator(cmp)
    requires SortedBy(cmp, r)
    requires StableFor(cmp, s, r)
    ensures r == Sort(cmp, s)
  {
    SortSorted(cmp, s);
    SortStable(cmp, s);
    StableSortUnique(cmp, r, Sort(cmp, s));
  }

  /** Sorting an already sorted list leaves it unchanged. */
  lemma SortOfSorted<T(!new)>(cmp: (T, T) -> int, s: seq<T>)
    requires ValidComparator(cmp)
    requires SortedBy(cmp, s)
    ensures Sort(cmp, s) == s
  {
    SortIsTheStableSort(cmp, s, s);
  }

  /** Sorting twice with the same comparator is sorting once. */
  lemma SortIdempotent<T(!new)>(cmp: (T, T) -> int, s: seq<T>)
    requires ValidComparator(cmp)
    ensures Sort(cmp, Sort(cmp, s)) == Sort(cmp, s)
  {
    SortSorted(cmp, s);
    SortOfSorted(cmp, Sort(cmp, s));
  }

  /**
   * Re-sorting with a comparator whose ties are those of the first one
   * forgets the first sort: the result is what sorting the original gives.
   */
  lemma ResortSameTies<T(!new)>(c1: (T, T) -> int, c2: (T, T) -> int, s: seq<T>)
    requires ValidComparator(c1) && ValidComparator(c2)
    requires forall x, y :: c1(x, y) == 0 <==> c2(x, y) == 0
    ensures Sort(c2, Sort(c1, s)) == Sort(c2, s)
  {
    var once := Sort(c1, s);
    forall a
      ensures Ties(c2, Sort(c2, once), a) == Ties(c2, s, a)
    {
      SortTies(c2, once, a);
      TiesSameZeros(c1, c2, once, a);
      SortTies(c1, s, a);
      TiesSameZeros(c1, c2, s, a);
    }
    SortSorted(c2, once);
    SortIsTheStableSort(c2, s, Sort(c2, once));
  }

  /** Comparators that agree on every pair sort every list alike. */
  lemma {:induction false} SortAgreeing<T>(c1: (T, T) -> int, c2: (T, T) -> int, s: seq<T>)
    requires forall x, y :: c1(x, y) == c2(x, y)
    ensures Sort(c1, s) == Sort(c2, s)
    decreases |s|
  {
    if |s| > 0 {
      SortAgreeing(c1, c2, s[..|s| - 1]);
      InsertAgreeing(c1, c2, Sort(c1, s[..|s| - 1]), s[|s| - 1]);
    }
  }

  lemma {:induction false} InsertAgreeing<T>(c1: (T, T) -> int, c2: (T, T) -> int, t: seq<T>, x: T)
    requires forall x, y :: c1(x, y) == c2(x, y)
    ensures Insert(c1, t, x) == Insert(c2, t, x)
    decreases |t|
  {
    if |t| > 0 {
      InsertAgreeing(c1, c2, t[1..], x);
    }
  }
}
