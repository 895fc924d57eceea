/** Ranking: JavaScript's stable `sort((a, b) => key(b) - key(a))` followed
    by `slice(0, k)`, with what a caller can rely on about the result. */
module TopK {

  predicate NonIncreasing<T>(s: seq<T>, key: T -> int) {
    forall i, j :: 0 <= i < j < |s| ==> key(s[j]) <= key(s[i])
  }

  /** Places `x` after every element whose key is at least its own, which is
      where a stable descending sort puts an element that came last. */
  function Insert<T>(x: T, s: seq<T>, key: T -> int): (r: seq<T>)
    ensures |r| == |s| + 1
    decreases |s|
  {
    if |s| == 0 then [x]
    else if key(s[0]) >= key(x) then [s[0]] + Insert(x, s[1..], key)
    else [x] + s
  }

  lemma {:induction false} InsertMultiset<T>(x: T, s: seq<T>, key: T -> int)
    ensures multiset(Insert(x, s, key)) == multiset(s) + multiset{x}
    decreases |s|
  {
    if |s| > 0 {
      InsertMultiset(x, s[1..], key);
      assert s == [s[0]] + s[1..];
    }
  }

  lemma {:induction false} InsertSorted<T>(x: T, s: seq<T>, key: T -> int)
    requires NonIncreasing(s, key)
    ensures NonIncreasing(Insert(x, s, key), key)
    decreases |s|
  {
    if |s| > 0 && key(s[0]) >= key(x) {
      var rest := Insert(x, s[1..], key);
      InsertSorted(x, s[1..], key);
      InsertMultiset(x, s[1..], key);
      forall j | 0 <= j < |rest| ensures key(rest[j]) <= key(s[0]) {
        assert rest[j] in multiset(rest);
        if rest[j] != x {
          assert rest[j] in multiset(s[1..]);
          var m :| 0 <= m < |s[1..]| && s[1..][m] == rest[j];
          assert s[m + 1] == rest[j];
        }
      }
      var r := Insert(x, s, key);
      assert r == [s[0]] + rest;
      forall i, j | 0 <= i < j < |r| ensures key(r[j]) <= key(r[i]) {
        if i > 0 {
          assert r[i] == rest[i - 1] && r[j] == rest[j - 1];
        } else {
          assert r[j] == rest[j - 1];
        }
      }
    }
  }

  /** Stable sort by non-increasing key. */
  function SortDesc<T>(s: seq<T>, key: T -> int): (r: seq<T>)
    ensures |r| == |s|
    ensures multiset(r) == multiset(s)
    ensures NonIncreasing(r, key)
    decreases |s|
  {
    if |s| == 0 then []
    else
      var init := s[..|s| - 1];
      var sortedInit := SortDesc(init, key);
      assert s == init + [s[|s| - 1]];
      InsertMultiset(s[|s| - 1], sortedInit, key);
      InsertSorted(s[|s| - 1], sortedInit, key);
      Insert(s[|s| - 1], sortedInit, key)
  }

  function Min(a: nat, b: nat): nat { if a <= b then a else b }

  /** The `k` entries with the largest keys, largest first. */
  function Top<T>(s: seq<T>, k: nat, key: T -> int): (r: seq<T>)
    ensures |r| == Min(k, |s|)
    ensures NonIncreasing(r, key)
  {
    SortDesc(s, key)[..Min(k, |s|)]
  }

  /** Every entry of the ranking comes from the input. */
  lemma TopFromInput<T>(s: seq<T>, k: nat, key: T -> int)
    ensures forall i :: 0 <= i < |Top(s, k, key)| ==> Top(s, k, key)[i] in s
  {
    var sorted := SortDesc(s, key);
    forall i | 0 <= i < |Top(s, k, key)| ensures Top(s, k, key)[i] in s {
      assert Top(s, k, key)[i] == sorted[i];
      assert sorted[i] in multiset(sorted);
    }
  }

  /** With at most `k` entries, every entry is ranked. */
  lemma TopKeepsAllWhenFew<T>(s: seq<T>, k: nat, key: T -> int, x: T)
    requires |s| <= k && x in s
    ensures x in Top(s, k, key)
  {
    var sorted := SortDesc(s, key);
    assert Top(s, k, key) == sorted;
    assert x in multiset(s);
  }

  /** An input entry left out of the ranking has a key no larger than any kept one. */
  lemma TopIsMaximal<T>(s: seq<T>, k: nat, key: T -> int, x: T)
    requires x in s
    requires x !in Top(s, k, key)
    ensures forall i :: 0 <= i < |Top(s, k, key)| ==> key(x) <= key(Top(s, k, key)[i])
  {
    var sorted := SortDesc(s, key);
    var r := Top(s, k, key);
    assert x in multiset(sorted);
    var j :| 0 <= j < |sorted| && sorted[j] == x;
    forall i | 0 <= i < |r| ensures key(x) <= key(r[i]) {
      assert r[i] == sorted[i];
    }
  }

  /** When the input holds no duplicates, neither does the ranking. */
  lemma TopDistinct<T>(s: seq<T>, k: nat, key: T -> int)
    requires forall i, j :: 0 <= i < j < |s| ==> s[i] != s[j]
    ensures forall i, j :: 0 <= i < j < |Top(s, k, key)| ==> Top(s, k, key)[i] != Top(s, k, key)[j]
  {
    var sorted := SortDesc(s, key);
    var r := Top(s, k, key);
    forall i, j | 0 <= i < j < |r| ensures r[i] != r[j] {
      if r[i] == r[j] {
        assert r[i] == sorted[i] && r[j] == sorted[j];
        MultiplicityAtLeastTwo(sorted, i, j);
        DistinctMultiplicity(s, sorted[i]);
        assert false;
      }
    }
  }

  lemma {:induction false} MultiplicityAtLeastTwo<T>(s: seq<T>, i: nat, j: nat)
    requires i < j < |s| && s[i] == s[j]
    ensures multiset(s)[s[i]] >= 2
  {
    var x := s[i];
    assert s == s[..i] + [x] + s[i + 1..j] + [x] + s[j + 1..];
  }

  lemma {:induction false} DistinctMultiplicity<T>(s: seq<T>, x: T)
    requires forall i, j :: 0 <= i < j < |s| ==> s[i] != s[j]
    ensures multiset(s)[x] <= 1
    decreases |s|
  {
    if |s| > 0 {
      DistinctMultiplicity(s[1..], x);
      assert s == [s[0]] + s[1..];
      if s[0] == x {
        assert x !in s[1..];
      }
    }
  }
}
