/** Counting occurrences by key, as `d3.rollup(values, v => v.length, key)`
    does for the charts: one group per distinct key, in order of first
    appearance, with the number of values having that key. */
module Grouping {

  datatype Group<K> = Group(key: K, count: nat)

  /** No key occurs in two groups. */
  ghost predicate DistinctKeys<K>(gs: seq<Group<K>>) {
    forall i, j :: 0 <= i < j < |gs| ==> gs[i].key != gs[j].key
  }

  /** No group has key `k`. */
  ghost predicate KeyAbsent<K>(gs: seq<Group<K>>, k: K) {
    forall g :: g in gs ==> g.key != k
  }

  lemma DistinctCons<K>(x: Group<K>, s: seq<Group<K>>)
    requires DistinctKeys(s) && KeyAbsent(s, x.key)
    ensures DistinctKeys([x] + s)
  {
    var r := [x] + s;
    assert forall j :: 0 < j < |r| ==> r[j] == s[j - 1] && r[j] in s;
  }

  lemma KeyAbsentTail<K>(s: seq<Group<K>>)
    requires |s| > 0 && DistinctKeys(s)
    ensures KeyAbsent(s[1..], s[0].key)
  {
    forall x | x in s[1..] ensures x.key != s[0].key {
      var j :| 0 <= j < |s[1..]| && s[1..][j] == x;
      assert s[j + 1] == x;
    }
  }

  /** Every group counts at least one value. */
  ghost predicate NonEmptyGroups<K>(gs: seq<Group<K>>) {
    forall i :: 0 <= i < |gs| ==> gs[i].count >= 1
  }

  /** The count recorded for `k`, 0 when there is no group for it. */
  function CountOf<K(==)>(gs: seq<Group<K>>, k: K): nat {
    if |gs| == 0 then 0 else if gs[0].key == k then gs[0].count else CountOf(gs[1..], k)
  }

  function SumCounts<K>(gs: seq<Group<K>>): nat {
    if |gs| == 0 then 0 else gs[0].count + SumCounts(gs[1..])
  }

  /** Whether some group has key `k`. */
  predicate HasKey<K(==)>(gs: seq<Group<K>>, k: K) {
    exists i :: 0 <= i < |gs| && gs[i].key == k
  }

  lemma {:induction false} SumCountsAppend<K>(a: seq<Group<K>>, b: seq<Group<K>>)
    ensures SumCounts(a + b) == SumCounts(a) + SumCounts(b)
  {
    if |a| > 0 {
      SumCountsAppend(a[1..], b);
      assert (a + b)[1..] == a[1..] + b;
    } else {
      assert a + b == b;
    }
  }

  /** A prefix counts no more than the whole. */
  lemma SumCountsPrefix<K>(gs: seq<Group<K>>, n: nat)
    requires n <= |gs|
    ensures SumCounts(gs[..n]) <= SumCounts(gs)
  {
    SumCountsAppend(gs[..n], gs[n..]);
    assert gs[..n] + gs[n..] == gs;
  }

  /** In groups with distinct keys, `CountOf` finds a group's own count. */
  lemma {:induction false} CountOfMember<K>(gs: seq<Group<K>>, i: int)
    requires DistinctKeys(gs) && 0 <= i < |gs|
    ensures CountOf(gs, gs[i].key) == gs[i].count
  {
    if i > 0 {
      assert gs[0].key != gs[i].key;
      CountOfMember(gs[1..], i - 1);
    }
  }

  /** With no empty groups, a key has a group exactly when it is counted. */
  lemma {:induction false} HasKeyIffCounted<K>(gs: seq<Group<K>>, k: K)
    requires NonEmptyGroups(gs)
    ensures HasKey(gs, k) <==> CountOf(gs, k) > 0
  {
    if |gs| > 0 {
      HasKeyIffCounted(gs[1..], k);
      if HasKey(gs, k) && gs[0].key != k {
        var i :| 0 <= i < |gs| && gs[i].key == k;
        assert gs[1..][i - 1].key == k;
      }
      if HasKey(gs[1..], k) {
        var i :| 0 <= i < |gs| - 1 && gs[1..][i].key == k;
        assert gs[i + 1].key == k;
      }
    }
  }

  /** Records one more value with key `k`. */
  function AddKey<K(==,!new)>(gs: seq<Group<K>>, k: K): (r: seq<Group<K>>)
    requires DistinctKeys(gs) && NonEmptyGroups(gs)
    ensures DistinctKeys(r) && NonEmptyGroups(r)
    ensures forall k' :: CountOf(r, k') == CountOf(gs, k') + (if k' == k then 1 else 0)
    ensures SumCounts(r) == SumCounts(gs) + 1
  {
    if |gs| == 0 then
      [Group(k, 1)]
    else if gs[0].key == k then
      var r := [Group(k, gs[0].count + 1)] + gs[1..];
      assert forall i :: 0 < i < |r| ==> r[i] == gs[i];
      r
    else
      var rest := AddKey(gs[1..], k);
      var r := [gs[0]] + rest;
      var k0 := gs[0].key;
      HasKeyIffCounted(gs[1..], k0);
      HasKeyIffCounted(rest, k0);
      assert forall j :: 0 <= j < |rest| ==> rest[j].key != k0;
      r
  }

  /** `d3.rollup(keys, v => v.length, key)` as a list of groups: one group per
      distinct key, counting exactly the values with that key. */
  function Rollup<K(==,!new)>(keys: seq<K>): (gs: seq<Group<K>>)
    ensures DistinctKeys(gs) && NonEmptyGroups(gs)
    ensures forall k :: CountOf(gs, k) == multiset(keys)[k]
    ensures SumCounts(gs) == |keys|
  {
    if |keys| == 0 then []
    else
      var init := keys[..|keys| - 1];
      var last := keys[|keys| - 1];
      assert keys == init + [last];
      AddKey(Rollup(init), last)
  }

  /** The keys of the groups, in order. */
  function GroupKeys<K>(gs: seq<Group<K>>): seq<K> {
    if |gs| == 0 then [] else [gs[0].key] + GroupKeys(gs[1..])
  }

  /** The distinct values of `keys`, each where it first occurs. */
  function FirstAppearances<K(==)>(keys: seq<K>): seq<K> {
    if |keys| == 0 then []
    else
      var init := keys[..|keys| - 1];
      var last := keys[|keys| - 1];
      if last in init then FirstAppearances(init) else FirstAppearances(init) + [last]
  }

  /** Counting a known key keeps the order; a new key goes last. */
  lemma {:induction false} AddKeyOrder<K(!new)>(gs: seq<Group<K>>, k: K)
    requires DistinctKeys(gs) && NonEmptyGroups(gs)
    ensures GroupKeys(AddKey(gs, k)) == if HasKey(gs, k) then GroupKeys(gs) else GroupKeys(gs) + [k]
  {
    if |gs| == 0 {
      assert !HasKey(gs, k);
    } else if gs[0].key == k {
      assert HasKey(gs, k);
      assert AddKey(gs, k)[1..] == gs[1..];
    } else {
      var rest := AddKey(gs[1..], k);
      assert AddKey(gs, k)[1..] == rest;
      AddKeyOrder(gs[1..], k);
      if HasKey(gs, k) {
        var i :| 0 <= i < |gs| && gs[i].key == k;
        assert gs[1..][i - 1].key == k;
      }
      if HasKey(gs[1..], k) {
        var i :| 0 <= i < |gs| - 1 && gs[1..][i].key == k;
        assert gs[i + 1].key == k;
      }
    }
  }

  /** A rollup lists its groups in order of first appearance. */
  lemma {:induction false} RollupOrder<K(!new)>(keys: seq<K>)
    ensures GroupKeys(Rollup(keys)) == FirstAppearances(keys)
  {
    if |keys| > 0 {
      var init := keys[..|keys| - 1];
      var last := keys[|keys| - 1];
      assert keys == init + [last];
      RollupOrder(init);
      RollupKeys(init, last);
      AddKeyOrder(Rollup(init), last);
    }
  }

  /** A rollup has a group for exactly the keys that occur. */
  lemma RollupKeys<K(!new)>(keys: seq<K>, k: K)
    ensures HasKey(Rollup(keys), k) <==> k in keys
  {
    HasKeyIffCounted(Rollup(keys), k);
  }

  /** Each group of a rollup counts exactly the values with its key. */
  lemma RollupGroupCount<K(!new)>(keys: seq<K>, i: int)
    requires 0 <= i < |Rollup(keys)|
    ensures Rollup(keys)[i].count == multiset(keys)[Rollup(keys)[i].key] >= 1
  {
    CountOfMember(Rollup(keys), i);
  }
}
