/**
 * Sorting a directory's records by file name, with the locale-aware
 * comparison replaced by character-by-character order (`StringOps.LessOrEqual`).
 */
module FilenameSort {
  import opened StringOps
  import opened Catalog

  /** Ascending by file name. */
  predicate Sorted(s: seq<ImageData>)
  {
    forall i, j :: 0 <= i < j < |s| ==> LessOrEqual(s[i].filename, s[j].filename)
  }

  predicate LowerBound(x: ImageData, s: seq<ImageData>)
  {
    forall y :: y in s ==> LessOrEqual(x.filename, y.filename)
  }

  lemma SortedCons(x: ImageData, s: seq<ImageData>)
    requires Sorted(s) && LowerBound(x, s)
    ensures Sorted([x] + s)
  {
    var r := [x] + s;
    forall i, j | 0 <= i < j < |r| ensures LessOrEqual(r[i].filename, r[j].filename) {
      if i == 0 {
        assert r[j] == s[j - 1];
        assert r[j] in s;
      } else {
        assert r[i] == s[i - 1] && r[j] == s[j - 1];
      }
    }
  }

  /** Inserts `x` before the first element it does not sort after. */
  function Insert(x: ImageData, s: seq<ImageData>): (r: seq<ImageData>)
    requires Sorted(s)
    ensures Sorted(r)
    ensures multiset(r) == multiset(s) + multiset{x}
    decreases |s|
  {
    if s == [] then [x]
    else if LessOrEqual(x.filename, s[0].filename) then
      InsertFirst(x, s);
      [x] + s
    else
      var rest := Insert(x, s[1..]);
      InsertLater(x, s, rest);
      [s[0]] + rest
  }

  lemma InsertFirst(x: ImageData, s: seq<ImageData>)
    requires Sorted(s) && s != [] && LessOrEqual(x.filename, s[0].filename)
    ensures Sorted([x] + s)
  {
    forall y | y in s ensures LessOrEqual(x.filename, y.filename) {
      var k :| 0 <= k < |s| && s[k] == y;
      if k > 0 { LessOrEqualTransitive(x.filename, s[0].filename, y.filename); }
    }
    SortedCons(x, s);
  }

  lemma InsertLater(x: ImageData, s: seq<ImageData>, rest: seq<ImageData>)
    requires Sorted(s) && s != [] && !LessOrEqual(x.filename, s[0].filename)
    requires Sorted(rest) && multiset(rest) == multiset(s[1..]) + multiset{x}
    ensures Sorted([s[0]] + rest)
    ensures multiset([s[0]] + rest) == multiset(s) + multiset{x}
  {
    assert s == [s[0]] + s[1..];
    forall y | y in rest ensures LessOrEqual(s[0].filename, y.filename) {
      assert y in multiset(rest);
      if y == x {
        LessOrEqualTotal(x.filename, s[0].filename);
      } else {
        assert y in multiset(s[1..]);
        var k :| 0 <= k < |s[1..]| && s[1..][k] == y;
        assert s[k + 1] == y;
      }
    }
    SortedCons(s[0], rest);
  }

  /** The images ordered by file name: sorted, and a permutation of the input. */
  function SortByFilename(s: seq<ImageData>): (r: seq<ImageData>)
    ensures Sorted(r)
    ensures multiset(r) == multiset(s)
    ensures |r| == |s|
    decreases |s|
  {
    if s == [] then []
    else
      assert s == [s[0]] + s[1..];
      Insert(s[0], SortByFilename(s[1..]))
  }

  /** The file name of a record decides the whole record. */
  predicate KeyedByFilename(s: seq<ImageData>)
  {
    forall x, y :: x in s && y in s && x.filename == y.filename ==> x == y
  }

  /** Keying by file name carries over to a permutation. */
  lemma KeyedPermutation(s: seq<ImageData>, t: seq<ImageData>)
    requires multiset(s) == multiset(t) && KeyedByFilename(t)
    ensures KeyedByFilename(s)
  {
    forall x, y | x in s && y in s && x.filename == y.filename ensures x == y {
      assert x in multiset(t) && y in multiset(t);
    }
  }

  /** A sorted sequence starts with a least element. */
  lemma SortedHeadIsLeast(s: seq<ImageData>, y: ImageData)
    requires Sorted(s) && y in s
    ensures LessOrEqual(s[0].filename, y.filename)
  {
    var i :| 0 <= i < |s| && s[i] == y;
    if i == 0 { LessOrEqualReflexive(y.filename); }
  }

  lemma SortedHeadsEqual(s: seq<ImageData>, t: seq<ImageData>)
    requires Sorted(s) && Sorted(t) && multiset(s) == multiset(t) && s != []
    requires KeyedByFilename(s)
    ensures t != [] && s[0] == t[0]
  {
    assert s[0] in multiset(t);
    assert t != [];
    assert t[0] in multiset(s);
    SortedHeadIsLeast(t, s[0]);
    SortedHeadIsLeast(s, t[0]);
    LessOrEqualAntisymmetric(s[0].filename, t[0].filename);
  }

  lemma TailsOfPermutations(s: seq<ImageData>, t: seq<ImageData>)
    requires multiset(s) == multiset(t) && s != [] && t != [] && s[0] == t[0]
    ensures multiset(s[1..]) == multiset(t[1..])
  {
    assert s == [s[0]] + s[1..] && t == [t[0]] + t[1..];
    assert multiset(s[1..]) == multiset(s) - multiset{s[0]};
    assert multiset(t[1..]) == multiset(t) - multiset{t[0]};
  }

  lemma SortedTail(s: seq<ImageData>)
    requires Sorted(s) && s != []
    ensures Sorted(s[1..])
  {
  }

  lemma KeyedTail(s: seq<ImageData>)
    requires KeyedByFilename(s) && s != []
    ensures KeyedByFilename(s[1..])
  {
    forall x, y | x in s[1..] && y in s[1..] && x.filename == y.filename ensures x == y {
      assert x in s && y in s;
    }
  }

  /**
   * Two sorted permutations of the same records are the same sequence when
   * records with equal file names are equal: the sorted order is unique.
   */
  lemma {:induction false} SortedPermutationsEqual(s: seq<ImageData>, t: seq<ImageData>)
    requires Sorted(s) && Sorted(t) && multiset(s) == multiset(t)
    requires KeyedByFilename(s)
    ensures s == t
    decreases |s|
  {
    if s == [] {
      assert |multiset(t)| == 0;
    } else {
      SortedHeadsEqual(s, t);
      TailsOfPermutations(s, t);
      SortedTail(s);
      SortedTail(t);
      KeyedTail(s);
      SortedPermutationsEqual(s[1..], t[1..]);
      assert s == [s[0]] + s[1..] && t == [t[0]] + t[1..];
    }
  }
}
