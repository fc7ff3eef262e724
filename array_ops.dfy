/** The two JavaScript array operations the account directory is used through:
    `find`/`findIndex` by username and `splice(start, 1)`. */
module ArrayOps {

  /** `findIndex(acc => acc.username === name)` over the usernames in list order:
      the first position holding `name`, or -1 when there is none.  `find` yields
      the account at that position, or `undefined` for -1. */
  function FindIndex(names: seq<string>, name: string): (k: int)
    ensures -1 <= k < |names|
    ensures k == -1 <==> name !in names
    ensures k >= 0 ==> names[k] == name && name !in names[..k]
  {
    if names == [] then -1
    else if names[0] == name then 0
    else
      var k := FindIndex(names[1..], name);
      assert names == [names[0]] + names[1..];
      if k == -1 then -1
      else
        assert names[..k + 1] == [names[0]] + names[1..][..k];
        k + 1
  }

  /** Where `splice` starts for an array of length `len`: a negative start counts
      back from the end and is clamped at 0, a start past the end is clamped to
      the length. */
  function SpliceStart(len: nat, start: int): (k: nat)
    ensures k <= len
    ensures 0 <= start <= len ==> k == start
    ensures -(len as int) <= start < 0 ==> k == len + start
    ensures start < -(len as int) ==> k == 0
    ensures start > len ==> k == len
  {
    if start < 0 then (if len + start < 0 then 0 else len + start)
    else if start > len then len
    else start
  }

  /** The array left by `s.splice(start, 1)`: one element shorter when the
      resolved start lies inside the array, unchanged otherwise. */
  function SpliceOne<T>(s: seq<T>, start: int): (r: seq<T>)
    ensures |r| == if SpliceStart(|s|, start) < |s| then |s| - 1 else |s|
  {
    var k := SpliceStart(|s|, start);
    if k < |s| then s[..k] + s[k + 1..] else s
  }

  // ----- lemmas -----

  /** `splice(start, 1)` removes exactly one element when the array is not empty
      and `start` is not past its end; the others keep their relative order. */
  lemma SpliceOneRemovesOne<T>(s: seq<T>, start: int)
    ensures var k := SpliceStart(|s|, start);
            var r := SpliceOne(s, start);
            (k < |s| ==> |r| == |s| - 1 && multiset(r) + multiset{s[k]} == multiset(s)) &&
            (k == |s| ==> r == s) &&
            (forall i :: 0 <= i < k && i < |r| ==> r[i] == s[i]) &&
            (forall i :: k <= i < |r| ==> r[i] == s[i + 1])
  {
    var k := SpliceStart(|s|, start);
    if k < |s| {
      assert s == s[..k] + [s[k]] + s[k + 1..];
      assert multiset(s) == multiset(s[..k]) + multiset{s[k]} + multiset(s[k + 1..]);
    }
  }

  /** `splice(-1, 1)` on a non-empty array drops its last element. */
  lemma SpliceMinusOne<T>(s: seq<T>)
    requires s != []
    ensures SpliceOne(s, -1) == s[..|s| - 1]
  {
  }

  /** No two positions hold the same element. */
  predicate Distinct<T(==)>(s: seq<T>)
  {
    forall i, j :: 0 <= i < j < |s| ==> s[i] != s[j]
  }

  /** `splice` only ever removes: whatever is left was there before. */
  lemma SpliceOneKeepsElements<T>(s: seq<T>, start: int, x: T)
    ensures x in SpliceOne(s, start) ==> x in s
  {
    var k := SpliceStart(|s|, start);
    if k < |s| {
      assert s == s[..k] + [s[k]] + s[k + 1..];
    }
  }

  /** Removing an element keeps the others distinct. */
  lemma SpliceOneKeepsDistinct<T>(s: seq<T>, start: int)
    requires Distinct(s)
    ensures Distinct(SpliceOne(s, start))
  {
    var k := SpliceStart(|s|, start);
    var r := SpliceOne(s, start);
    SpliceOneRemovesOne(s, start);
    forall i, j | 0 <= i < j < |r| ensures r[i] != r[j] {
      var i', j' := if i < k then i else i + 1, if j < k then j else j + 1;
      assert r[i] == s[i'] && r[j] == s[j'] && i' < j';
    }
  }

  /** Removing the one position that holds `name` from a list of distinct names
      leaves no position holding it. */
  lemma SpliceRemovesName(names: seq<string>, name: string)
    requires Distinct(names)
    requires name in names
    ensures name !in SpliceOne(names, FindIndex(names, name))
  {
    var k := FindIndex(names, name);
    var r := SpliceOne(names, k);
    SpliceOneRemovesOne(names, k);
    forall i | 0 <= i < |r| ensures r[i] != name {
      if i < k {
        assert r[i] == names[i];
      } else {
        assert r[i] == names[i + 1];
      }
    }
  }
}
