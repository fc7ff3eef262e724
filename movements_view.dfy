/** The order in which displayMovements lists an account's movements
    (8-Arrays/script.js:72): chronological, or an ascending copy made with
    `movements.slice().sort((a, b) => a - b)`.  The stored list is never touched. */
module MovementsView {

  predicate Ascending(s: seq<real>)
  {
    forall i, j :: 0 <= i < j < |s| ==> s[i] <= s[j]
  }

  /** Places `x` before the first element it does not exceed. */
  function Insert(x: real, s: seq<real>): (r: seq<real>)
    ensures |r| == |s| + 1
  {
    if s == [] then [x]
    else if x <= s[0] then [x] + s
    else [s[0]] + Insert(x, s[1..])
  }

  /** Inserting into an ascending list keeps it ascending, and the new head is
      the smaller of `x` and the old head. */
  lemma {:induction false} InsertKeepsAscending(x: real, s: seq<real>)
    requires Ascending(s)
    ensures Ascending(Insert(x, s))
    ensures Insert(x, s)[0] == if s != [] && s[0] < x then s[0] else x
  {
    if s != [] {
      if x <= s[0] {
        AscendingCons(x, s);
      } else {
        AscendingTail(s);
        InsertKeepsAscending(x, s[1..]);
        assert |s| > 1 ==> s[0] <= s[1];
        AscendingCons(s[0], Insert(x, s[1..]));
      }
    }
  }

  /** Inserting adds exactly `x` to the elements. */
  lemma {:induction false} InsertAddsOne(x: real, s: seq<real>)
    ensures multiset(Insert(x, s)) == multiset(s) + multiset{x}
  {
    if s != [] && s[0] < x {
      InsertAddsOne(x, s[1..]);
      assert s == [s[0]] + s[1..];
    }
  }

  /** A head no larger than the first element of an ascending tail keeps it ascending. */
  lemma AscendingCons(h: real, t: seq<real>)
    requires Ascending(t) && (t == [] || h <= t[0])
    ensures Ascending([h] + t)
  {
    var r := [h] + t;
    forall i, j | 0 <= i < j < |r| ensures r[i] <= r[j] {
      if i > 0 {
        assert r[i] == t[i - 1] && r[j] == t[j - 1];
      } else {
        assert r[j] == t[j - 1] && t[0] <= t[j - 1];
      }
    }
  }

  /** `movements.slice().sort((a, b) => a - b)`: a copy, sorted by insertion. */
  function SortedCopy(s: seq<real>): (r: seq<real>)
    ensures |r| == |s|
  {
    if s == [] then [] else Insert(s[0], SortedCopy(s[1..]))
  }

  /** The sorted copy is an ascending permutation of the list. */
  lemma {:induction false} SortedCopySorts(s: seq<real>)
    ensures Ascending(SortedCopy(s))
    ensures multiset(SortedCopy(s)) == multiset(s)
  {
    if s != [] {
      var sorted := SortedCopy(s[1..]);
      assert Ascending(Insert(s[0], sorted)) by {
        SortedCopySorts(s[1..]);
        InsertKeepsAscending(s[0], sorted);
      }
      assert multiset(Insert(s[0], sorted)) == multiset(s) by {
        SortedCopySorts(s[1..]);
        InsertAddsOne(s[0], sorted);
        assert s == [s[0]] + s[1..];
      }
    }
  }

  /** `sort ? movements.slice().sort(...) : movements` */
  function Displayed(movements: seq<real>, sort: bool): (r: seq<real>)
    ensures multiset(r) == multiset(movements)
    ensures sort ==> Ascending(r)
    ensures !sort ==> r == movements
  {
    SortedCopySorts(movements);
    if sort then SortedCopy(movements) else movements
  }

  // ----- lemmas -----

  /** Two ascending lists with the same elements are the same list: the sorted
      view does not depend on how the sort is carried out. */
  lemma {:induction false} AscendingPermutationsAreEqual(a: seq<real>, b: seq<real>)
    requires Ascending(a) && Ascending(b)
    requires multiset(a) == multiset(b)
    ensures a == b
  {
    assert |a| == |multiset(a)| == |multiset(b)| == |b|;
    if a != [] {
      var x := a[0];
      assert b[0] == x by {
        HeadIsLeast(a, b[0]);
        HeadIsLeast(b, a[0]);
      }
      assert multiset(a[1..]) == multiset(b[1..]) by {
        assert a == [x] + a[1..] && b == [x] + b[1..];
        assert multiset(a[1..]) == multiset(a) - multiset{x};
        assert multiset(b[1..]) == multiset(b) - multiset{x};
      }
      AscendingTail(a);
      AscendingTail(b);
      AscendingPermutationsAreEqual(a[1..], b[1..]);
      assert a == [x] + a[1..] && b == [x] + b[1..];
    }
  }

  /** The head of an ascending list is no larger than any of its elements. */
  lemma HeadIsLeast(s: seq<real>, y: real)
    requires Ascending(s) && y in multiset(s)
    ensures s[0] <= y
  {
    var i :| 0 <= i < |s| && s[i] == y;
  }

  lemma AscendingTail(s: seq<real>)
    requires Ascending(s) && s != []
    ensures Ascending(s[1..])
  {
    forall i, j | 0 <= i < j < |s| - 1 ensures s[1..][i] <= s[1..][j] {
      assert s[1..][i] == s[i + 1] && s[1..][j] == s[j + 1];
    }
  }

  /** Sorting an ascending list leaves it as it is. */
  lemma SortedCopyOfAscending(s: seq<real>)
    requires Ascending(s)
    ensures SortedCopy(s) == s
  {
    SortedCopySorts(s);
    AscendingPermutationsAreEqual(SortedCopy(s), s);
  }

  /** Sorting twice gives the same view as sorting once. */
  lemma SortedCopyIdempotent(s: seq<real>)
    ensures SortedCopy(SortedCopy(s)) == SortedCopy(s)
  {
    SortedCopySorts(s);
    SortedCopyOfAscending(SortedCopy(s));
  }
}
