/** A JavaScript object used as a counter, `counts[key] = (counts[key] || 0) + 1`,
    together with the order in which its keys were first inserted. */
module Counters {
  import opened Common

  datatype Tally<K> = Tally(counts: map<K, nat>, order: seq<K>)

  predicate Distinct<K(==)>(s: seq<K>) {
    forall i, j :: 0 <= i < j < |s| ==> s[i] != s[j]
  }

  /** The keys in `order` are exactly those counted, each listed once. */
  predicate WellFormed<K>(t: Tally<K>) {
    Distinct(t.order) && t.counts.Keys == Elements(t.order)
  }

  function Elements<K>(s: seq<K>): set<K> {
    set i | 0 <= i < |s| :: s[i]
  }

  /** One increment: a new key starts at 1 and goes to the end of the order. */
  function Bump<K>(t: Tally<K>, k: K): (r: Tally<K>)
    ensures k in r.counts
  {
    if k in t.counts then Tally(t.counts[k := t.counts[k] + 1], t.order)
    else Tally(t.counts[k := 1], t.order + [k])
  }

  /** The counter after counting `keys` from left to right. */
  function TallyOf<K>(keys: seq<K>): Tally<K>
    decreases |keys|
  {
    if |keys| == 0 then Tally(map[], [])
    else Bump(TallyOf(keys[..|keys| - 1]), keys[|keys| - 1])
  }

  /** Counting one more key is one more increment. */
  lemma TallyOfAppend<K>(keys: seq<K>, k: K)
    ensures TallyOf(keys + [k]) == Bump(TallyOf(keys), k)
  {
    assert (keys + [k])[..|keys|] == keys;
  }

  /** The number of occurrences of `k`. */
  function Occurrences<K(==)>(keys: seq<K>, k: K): nat {
    Count(keys, (x: K) => x == k)
  }

  /** The counter is well formed, and counts exactly the keys it saw. */
  lemma {:induction false} TallyWellFormed<K>(keys: seq<K>)
    ensures WellFormed(TallyOf(keys))
    ensures forall k :: k in TallyOf(keys).counts <==> k in keys
    decreases |keys|
  {
    if |keys| > 0 {
      var init := keys[..|keys| - 1];
      var last := keys[|keys| - 1];
      TallyWellFormed(init);
      assert keys == init + [last];
      var t := TallyOf(init);
      if last !in t.counts {
        var o := t.order + [last];
        assert forall i :: 0 <= i < |t.order| ==> o[i] == t.order[i];
        assert o[|t.order|] == last;
      }
    }
  }

  /** Each key's count is its number of occurrences. */
  lemma {:induction false} TallyCounts<K>(keys: seq<K>, k: K)
    ensures k in TallyOf(keys).counts ==> TallyOf(keys).counts[k] == Occurrences(keys, k)
    ensures k !in TallyOf(keys).counts ==> Occurrences(keys, k) == 0
    decreases |keys|
  {
    if |keys| > 0 {
      var init := keys[..|keys| - 1];
      var last := keys[|keys| - 1];
      TallyCounts(init, k);
      assert keys == init + [last];
      CountAppend(init, last, (x: K) => x == k);
    }
  }

  /** The count of a key as a total function, 0 for a key never seen. */
  function CountOf<K>(t: Tally<K>, k: K): nat {
    if k in t.counts then t.counts[k] else 0
  }

  /** The sum of the counts over the key order. */
  function Total<K>(t: Tally<K>): int {
    Sum(t.order, (k: K) => CountOf(t, k))
  }

  /** The counts add up to the number of keys counted. */
  lemma {:induction false} TallyTotal<K>(keys: seq<K>)
    ensures Total(TallyOf(keys)) == |keys|
    decreases |keys|
  {
    if |keys| > 0 {
      var init := keys[..|keys| - 1];
      var last := keys[|keys| - 1];
      TallyTotal(init);
      TallyWellFormed(init);
      var t := TallyOf(init);
      var r := Bump(t, last);
      if last in t.counts {
        SumBumped(t.order, t, r, last);
      } else {
        SumUnchanged(t.order, t, r);
        SumAppend(t.order, last, (k: K) => CountOf(r, k));
      }
    }
  }

  /** Raising one listed key's count by one raises the sum by one. */
  lemma {:induction false} SumBumped<K>(order: seq<K>, t: Tally<K>, r: Tally<K>, k: K)
    requires Distinct(order) && k in order
    requires forall x :: x != k ==> CountOf(r, x) == CountOf(t, x)
    requires CountOf(r, k) == CountOf(t, k) + 1
    ensures Sum(order, (x: K) => CountOf(r, x)) == Sum(order, (x: K) => CountOf(t, x)) + 1
    decreases |order|
  {
    var tail := order[1..];
    assert Distinct(tail) by {
      forall i, j | 0 <= i < j < |tail| ensures tail[i] != tail[j] {
        assert tail[i] == order[i + 1] && tail[j] == order[j + 1];
      }
    }
    if order[0] == k {
      assert k !in tail by {
        forall i | 0 <= i < |tail| ensures tail[i] != k {
          assert tail[i] == order[i + 1];
        }
      }
      SumUnchanged(tail, t, r);
    } else {
      SumBumped(tail, t, r, k);
    }
  }

  /** Counts that agree on every listed key give the same sum. */
  lemma {:induction false} SumUnchanged<K>(order: seq<K>, t: Tally<K>, r: Tally<K>)
    requires forall i :: 0 <= i < |order| ==> CountOf(r, order[i]) == CountOf(t, order[i])
    ensures Sum(order, (x: K) => CountOf(r, x)) == Sum(order, (x: K) => CountOf(t, x))
    decreases |order|
  {
    if |order| > 0 {
      assert forall i :: 0 <= i < |order[1..]| ==> order[1..][i] == order[i + 1];
      SumUnchanged(order[1..], t, r);
    }
  }
}
