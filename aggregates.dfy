/**
  What the report's ORM queries compute over the work entries: filtering by
  date (`work_date__range`, `work_date=`), `Sum("quantity")`, grouping with
  `values(...).annotate(total=Sum("quantity"))`, and `order_by("-total")`.
  Each entry is seen joined with its worker and work type, the way the
  queries' `worker__full_name` and `work_type__name` lookups see it.
 */
module Aggregates {
  import opened Dates

  /** One work entry as the queries see it; the quantity is in thousandths. */
  datatype Row = Row(
    worker: nat,
    workerName: string,
    workType: nat,
    typeName: string,
    unit: string,
    date: Day,
    quantity: nat)

  function DateKey(r: Row): int { r.date }
  function NameKey(r: Row): string { r.workerName }
  function TypeKey(r: Row): (string, string) { (r.typeName, r.unit) }

  /** `Sum("quantity")`, with the `or 0` applied to an empty set of rows. */
  function SumQuantity(rs: seq<Row>): nat
  {
    if rs == [] then 0 else SumQuantity(rs[..|rs| - 1]) + rs[|rs| - 1].quantity
  }

  /** The rows with lo <= date <= hi, in their original order (`work_date__range=(lo, hi)`). */
  function Between(rs: seq<Row>, lo: int, hi: int): (sel: seq<Row>)
    ensures |sel| <= |rs|
  {
    if rs == [] then []
    else
      var last := rs[|rs| - 1];
      Between(rs[..|rs| - 1], lo, hi) + (if lo <= last.date <= hi then [last] else [])
  }

  /** The selected rows are exactly the rows dated within the range. */
  lemma {:induction false} BetweenMembers(rs: seq<Row>, lo: int, hi: int)
    ensures forall r :: r in Between(rs, lo, hi) <==> r in rs && lo <= r.date <= hi
  {
    if rs != [] {
      var init, last := rs[..|rs| - 1], rs[|rs| - 1];
      BetweenMembers(init, lo, hi);
      assert rs == init + [last];
    }
  }

  /** The summed quantity of the rows whose key is k. */
  function KeyTotal<K(==)>(rs: seq<Row>, key: Row -> K, k: K): nat
  {
    if rs == [] then 0
    else
      var last := rs[|rs| - 1];
      KeyTotal(rs[..|rs| - 1], key, k) + (if key(last) == k then last.quantity else 0)
  }

  /** The set of keys the rows carry: the groups of a `values(...)` query. */
  function KeysIn<K>(rs: seq<Row>, key: Row -> K): set<K>
  {
    if rs == [] then {} else KeysIn(rs[..|rs| - 1], key) + {key(rs[|rs| - 1])}
  }

  /** One result row of a grouped query: the group's key and its summed quantity. */
  datatype Bucket<K> = Bucket(key: K, total: nat)

  function Keys<K>(bs: seq<Bucket<K>>): set<K> {
    if bs == [] then {} else {bs[0].key} + Keys(bs[1..])
  }

  predicate DistinctKeys<K(==)>(bs: seq<Bucket<K>>) {
    bs == [] || (bs[0].key !in Keys(bs[1..]) && DistinctKeys(bs[1..]))
  }

  /** `order_by("-total")`: totals never increase along the sequence. */
  predicate NonIncreasing<K>(bs: seq<Bucket<K>>) {
    forall i, j :: 0 <= i < j < |bs| ==> bs[i].total >= bs[j].total
  }

  function Total<K>(bs: seq<Bucket<K>>): nat {
    if bs == [] then 0 else bs[0].total + Total(bs[1..])
  }

  /** The total of the first bucket with key k, 0 when there is none (`dict.get(k, 0)`). */
  function Lookup<K(==)>(bs: seq<Bucket<K>>, k: K): nat {
    if bs == [] then 0 else if bs[0].key == k then bs[0].total else Lookup(bs[1..], k)
  }

  lemma {:induction false} KeysAt<K>(bs: seq<Bucket<K>>, k: K)
    ensures k in Keys(bs) <==> exists i :: 0 <= i < |bs| && bs[i].key == k
  {
    if bs != [] {
      KeysAt(bs[1..], k);
      if k in Keys(bs[1..]) {
        var i :| 0 <= i < |bs[1..]| && bs[1..][i].key == k;
        assert bs[i + 1].key == k;
      }
      if exists i :: 0 <= i < |bs| && bs[i].key == k {
        var i :| 0 <= i < |bs| && bs[i].key == k;
        assert i == 0 || bs[1..][i - 1].key == k;
      }
    }
  }

  /** The first n entries of a sorted sequence with distinct keys are still sorted and
      still have distinct keys. */
  lemma SortedPrefix<K>(bs: seq<Bucket<K>>, n: nat)
    requires NonIncreasing(bs) && DistinctKeys(bs) && n <= |bs|
    ensures NonIncreasing(bs[..n])
    ensures forall i, j :: 0 <= i < j < n ==> bs[..n][i].key != bs[..n][j].key
  {
    forall i, j | 0 <= i < j < n
      ensures bs[..n][i].key != bs[..n][j].key
    {
      DistinctKeysAt(bs, i, j);
    }
  }

  /** In a sequence sorted by total, a key missing from the first n entries has a total
      no larger than any of theirs. */
  lemma PrefixCutoff<K>(bs: seq<Bucket<K>>, n: nat, j: int)
    requires NonIncreasing(bs) && n <= |bs| && 0 <= j < |bs| && bs[j].key !in Keys(bs[..n])
    ensures forall i :: 0 <= i < n ==> bs[j].total <= bs[i].total
  {
    KeysAt(bs[..n], bs[j].key);
    assert n <= j;
  }

  lemma {:induction false} DistinctKeysAt<K>(bs: seq<Bucket<K>>, i: int, j: int)
    requires DistinctKeys(bs) && 0 <= i < j < |bs|
    ensures bs[i].key != bs[j].key
  {
    if i == 0 {
      KeysAt(bs[1..], bs[j].key);
      assert bs[1..][j - 1] == bs[j];
    } else {
      DistinctKeysAt(bs[1..], i - 1, j - 1);
    }
  }

  /** Adds quantity q to the group k, opening that group if it is new. */
  function AddTo<K(==)>(bs: seq<Bucket<K>>, k: K, q: nat): (r: seq<Bucket<K>>)
    ensures |r| == |bs| || |r| == |bs| + 1
  {
    if bs == [] then [Bucket(k, q)]
    else if bs[0].key == k then [Bucket(k, bs[0].total + q)] + bs[1..]
    else [bs[0]] + AddTo(bs[1..], k, q)
  }

  lemma {:induction false} AddToKeys<K>(bs: seq<Bucket<K>>, k: K, q: nat)
    ensures Keys(AddTo(bs, k, q)) == Keys(bs) + {k}
    ensures DistinctKeys(bs) ==> DistinctKeys(AddTo(bs, k, q))
  {
    if bs != [] && bs[0].key != k {
      AddToKeys(bs[1..], k, q);
      assert AddTo(bs, k, q)[1..] == AddTo(bs[1..], k, q);
    } else if bs != [] {
      assert AddTo(bs, k, q)[1..] == bs[1..];
    }
  }

  lemma {:induction false} AddToTotals<K>(bs: seq<Bucket<K>>, k: K, q: nat, j: K)
    ensures Total(AddTo(bs, k, q)) == Total(bs) + q
    ensures Lookup(AddTo(bs, k, q), j) == Lookup(bs, j) + (if j == k then q else 0)
  {
    if bs != [] && bs[0].key != k {
      AddToTotals(bs[1..], k, q, j);
      assert AddTo(bs, k, q)[1..] == AddTo(bs[1..], k, q);
    } else if bs != [] {
      assert AddTo(bs, k, q)[1..] == bs[1..];
    }
  }

  /** `values(key).annotate(total=Sum("quantity"))`, one row added at a time. */
  function GroupSum<K(==)>(rs: seq<Row>, key: Row -> K): seq<Bucket<K>>
  {
    if rs == [] then []
    else AddTo(GroupSum(rs[..|rs| - 1], key), key(rs[|rs| - 1]), rs[|rs| - 1].quantity)
  }

  /** One bucket per group present in the rows, each holding that group's total,
      and together holding every row's quantity once. */
  lemma {:induction false} GroupSumCorrect<K>(rs: seq<Row>, key: Row -> K)
    ensures DistinctKeys(GroupSum(rs, key))
    ensures Keys(GroupSum(rs, key)) == KeysIn(rs, key)
    ensures Total(GroupSum(rs, key)) == SumQuantity(rs)
    ensures forall k :: Lookup(GroupSum(rs, key), k) == KeyTotal(rs, key, k)
  {
    if rs != [] {
      var init, last := rs[..|rs| - 1], rs[|rs| - 1];
      GroupSumCorrect(init, key);
      AddToKeys(GroupSum(init, key), key(last), last.quantity);
      AddToTotals(GroupSum(init, key), key(last), last.quantity, key(last));
      forall k ensures Lookup(GroupSum(rs, key), k) == KeyTotal(rs, key, k) {
        AddToTotals(GroupSum(init, key), key(last), last.quantity, k);
      }
    }
  }

  /** In a bucket sequence with distinct keys, every bucket is the one Lookup finds. */
  lemma {:induction false} LookupFinds<K>(bs: seq<Bucket<K>>, i: int)
    requires DistinctKeys(bs) && 0 <= i < |bs|
    ensures Lookup(bs, bs[i].key) == bs[i].total
  {
    if i > 0 {
      DistinctKeysAt(bs, 0, i);
      LookupFinds(bs[1..], i - 1);
    }
  }

  /** Distinct keys: there are as many buckets as groups. */
  lemma {:induction false} DistinctKeysCount<K>(bs: seq<Bucket<K>>)
    requires DistinctKeys(bs)
    ensures |Keys(bs)| == |bs|
  {
    if bs != [] {
      DistinctKeysCount(bs[1..]);
    }
  }

  /** Places b before the first bucket whose total does not exceed its own. */
  function InsertByTotal<K>(b: Bucket<K>, bs: seq<Bucket<K>>): (r: seq<Bucket<K>>)
    ensures multiset(r) == multiset(bs) + multiset{b}
  {
    if bs == [] || bs[0].total <= b.total then [b] + bs
    else
      assert bs == [bs[0]] + bs[1..];
      [bs[0]] + InsertByTotal(b, bs[1..])
  }

  lemma {:induction false} InsertByTotalSorted<K>(b: Bucket<K>, bs: seq<Bucket<K>>)
    requires NonIncreasing(bs)
    ensures NonIncreasing(InsertByTotal(b, bs))
  {
    if !(bs == [] || bs[0].total <= b.total) {
      var rest := InsertByTotal(b, bs[1..]);
      InsertByTotalSorted(b, bs[1..]);
      forall x | x in rest ensures x.total <= bs[0].total {
        assert x in multiset(rest);
      }
    }
  }

  lemma {:induction false} InsertByTotalKeys<K>(b: Bucket<K>, bs: seq<Bucket<K>>)
    ensures Keys(InsertByTotal(b, bs)) == Keys(bs) + {b.key}
    ensures Total(InsertByTotal(b, bs)) == Total(bs) + b.total
    ensures DistinctKeys(bs) && b.key !in Keys(bs) ==> DistinctKeys(InsertByTotal(b, bs))
  {
    if bs == [] || bs[0].total <= b.total {
      assert InsertByTotal(b, bs)[1..] == bs;
    } else {
      InsertByTotalKeys(b, bs[1..]);
      assert InsertByTotal(b, bs)[1..] == InsertByTotal(b, bs[1..]);
    }
  }

  /** `order_by("-total")`: sorts by decreasing total, keeping every bucket. */
  function SortByTotal<K>(bs: seq<Bucket<K>>): (r: seq<Bucket<K>>)
    ensures multiset(r) == multiset(bs)
  {
    if bs == [] then []
    else
      assert bs == [bs[0]] + bs[1..];
      InsertByTotal(bs[0], SortByTotal(bs[1..]))
  }

  /** The sorted buckets are a permutation in non-increasing order, with the same
      groups and the same grand total as before. */
  lemma {:induction false} SortByTotalCorrect<K>(bs: seq<Bucket<K>>)
    ensures |SortByTotal(bs)| == |bs|
    ensures NonIncreasing(SortByTotal(bs))
    ensures Keys(SortByTotal(bs)) == Keys(bs)
    ensures Total(SortByTotal(bs)) == Total(bs)
    ensures DistinctKeys(bs) ==> DistinctKeys(SortByTotal(bs))
  {
    var r := SortByTotal(bs);
    assert |r| == |multiset(r)| == |multiset(bs)| == |bs|;
    if bs != [] {
      SortByTotalCorrect(bs[1..]);
      InsertByTotalSorted(bs[0], SortByTotal(bs[1..]));
      InsertByTotalKeys(bs[0], SortByTotal(bs[1..]));
    }
  }

  /** A range whose end comes before its start selects no row. */
  lemma {:induction false} BetweenEmpty(rs: seq<Row>, lo: int, hi: int)
    requires hi < lo
    ensures Between(rs, lo, hi) == []
  {
    if rs != [] {
      BetweenEmpty(rs[..|rs| - 1], lo, hi);
    }
  }

  /** Filtering rows that already lie in the range keeps all of them, in order. */
  lemma {:induction false} BetweenAll(rs: seq<Row>, lo: int, hi: int)
    requires forall r :: r in rs ==> lo <= r.date <= hi
    ensures Between(rs, lo, hi) == rs
  {
    if rs != [] {
      var init, last := rs[..|rs| - 1], rs[|rs| - 1];
      assert rs == init + [last];
      BetweenAll(init, lo, hi);
      assert Between(rs, lo, hi) == Between(init, lo, hi) + [last];
    }
  }

  /** Widening a range by its last day adds exactly the quantities dated that day. */
  lemma {:induction false} BetweenExtend(rs: seq<Row>, lo: int, hi: int)
    requires lo <= hi
    ensures SumQuantity(Between(rs, lo, hi)) == SumQuantity(Between(rs, lo, hi - 1)) + KeyTotal(rs, DateKey, hi)
  {
    if rs != [] {
      var init, last := rs[..|rs| - 1], rs[|rs| - 1];
      BetweenExtend(init, lo, hi);
      SumQuantityAppend(Between(init, lo, hi), if lo <= last.date <= hi then [last] else []);
      SumQuantityAppend(Between(init, lo, hi - 1), if lo <= last.date <= hi - 1 then [last] else []);
    }
  }

  lemma SumQuantityAppend(rs: seq<Row>, tail: seq<Row>)
    requires |tail| <= 1
    ensures SumQuantity(rs + tail) == SumQuantity(rs) + (if tail == [] then 0 else tail[0].quantity)
  {
    if tail != [] {
      assert (rs + tail)[..|rs|] == rs;
    } else {
      assert rs + tail == rs;
    }
  }

  /** A group no row belongs to has total 0. */
  lemma {:induction false} KeyTotalAbsent<K>(rs: seq<Row>, key: Row -> K, k: K)
    requires k !in KeysIn(rs, key)
    ensures KeyTotal(rs, key, k) == 0
  {
    if rs != [] {
      KeyTotalAbsent(rs[..|rs| - 1], key, k);
    }
  }

  /** There are never more groups than rows, and some rows make at least one group. */
  lemma {:induction false} KeysInSize<K>(rs: seq<Row>, key: Row -> K)
    ensures |KeysIn(rs, key)| <= |rs|
    ensures rs != [] ==> |KeysIn(rs, key)| >= 1
  {
    if rs != [] {
      KeysInSize(rs[..|rs| - 1], key);
      assert key(rs[|rs| - 1]) in KeysIn(rs, key);
    }
  }

  /** A key is among the groups exactly when some row carries it: `values(...).distinct()`
      has one row per value present. */
  lemma {:induction false} KeysInMembers<K>(rs: seq<Row>, key: Row -> K, k: K)
    ensures k in KeysIn(rs, key) <==> exists r :: r in rs && key(r) == k
  {
    if rs != [] {
      var init, last := rs[..|rs| - 1], rs[|rs| - 1];
      KeysInMembers(init, key, k);
      assert rs == init + [last];
      assert forall r :: r in rs <==> r in init || r == last;
    }
  }

  /** Every bucket of the sorted grouping holds exactly its group's total. */
  lemma SortedGroupEntry<K>(rs: seq<Row>, key: Row -> K, i: int)
    requires 0 <= i < |SortByTotal(GroupSum(rs, key))|
    ensures SortByTotal(GroupSum(rs, key))[i].total == KeyTotal(rs, key, SortByTotal(GroupSum(rs, key))[i].key)
  {
    var g := GroupSum(rs, key);
    var s := SortByTotal(g);
    assert s[i] in multiset(s);
    assert s[i] in multiset(g);
    var j :| 0 <= j < |g| && g[j] == s[i];
    GroupSumCorrect(rs, key);
    LookupFinds(g, j);
  }

  lemma {:induction false} KeysSnoc<K>(bs: seq<Bucket<K>>)
    requires bs != []
    ensures Keys(bs) == Keys(bs[..|bs| - 1]) + {bs[|bs| - 1].key}
  {
    if |bs| > 1 {
      KeysSnoc(bs[1..]);
      assert bs[1..][..|bs| - 2] == bs[..|bs| - 1][1..];
    }
  }

  lemma {:induction false} DistinctKeysSnoc<K>(bs: seq<Bucket<K>>)
    requires bs != [] && DistinctKeys(bs)
    ensures DistinctKeys(bs[..|bs| - 1]) && bs[|bs| - 1].key !in Keys(bs[..|bs| - 1])
  {
    if |bs| > 1 {
      DistinctKeysSnoc(bs[1..]);
      assert bs[1..][..|bs| - 2] == bs[..|bs| - 1][1..];
      KeysSnoc(bs[1..]);
    }
  }

  lemma {:induction false} LookupSnoc<K>(bs: seq<Bucket<K>>, k: K)
    requires bs != [] && k != bs[|bs| - 1].key
    ensures Lookup(bs, k) == Lookup(bs[..|bs| - 1], k)
  {
    if |bs| > 1 && bs[0].key != k {
      LookupSnoc(bs[1..], k);
      assert bs[1..][..|bs| - 2] == bs[..|bs| - 1][1..];
    }
  }
}
