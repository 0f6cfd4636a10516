/** Counting how often each key occurs, in the way the dashboards build their chart data:
    `acc[key] = (acc[key] || 0) + 1` inside a `forEach`, then `Object.entries(acc)`. The object
    records its keys in the order they were first inserted; `Object.entries` lists the keys
    that are array indices first, in ascending numeric order, and then the others in insertion
    order (the own-property-key order of section 10.1.11.1 of ECMA-262). */
module Tally {
  import opened Common
  import opened Strings
  import opened Sorting

  /** The keys of `s` in order of first occurrence, each once. */
  function Dedup<T(==,!new)>(s: seq<T>): (r: seq<T>)
    ensures Distinct(r)
    ensures forall x :: x in r <==> x in s
  {
    if s == [] then []
    else
      var d := Dedup(s[..|s| - 1]);
      assert forall x :: x in s <==> x in s[..|s| - 1] || x == s[|s| - 1];
      if s[|s| - 1] in d then d else d + [s[|s| - 1]]
  }

  /** Each key of `ks` with the number of times it occurs in `s`. */
  function EntriesIn<T(==)>(ks: seq<T>, s: seq<T>): (r: seq<(T, nat)>)
    ensures |r| == |ks| && forall i :: 0 <= i < |ks| ==> r[i] == (ks[i], multiset(s)[ks[i]])
  {
    seq(|ks|, i requires 0 <= i < |ks| => (ks[i], multiset(s)[ks[i]]))
  }

  /** One more key extends the first-occurrence list exactly when the key is new. */
  lemma DedupSnoc<T(!new)>(p: seq<T>, k: T)
    ensures Dedup(p + [k]) == if k in p then Dedup(p) else Dedup(p) + [k]
  {
    assert (p + [k])[..|p|] == p;
  }

  /** Sum of the counts of a list of entries. */
  function SumCounts<T>(es: seq<(T, nat)>): nat
  {
    if es == [] then 0 else es[0].1 + SumCounts(es[1..])
  }

  /** `acc` counts each key of `p`, and `order` holds the keys of `p` in the order they were
      first inserted. */
  ghost predicate Counted<T(!new)>(acc: map<T, nat>, order: seq<T>, p: seq<T>)
  {
    order == Dedup(p)
    && (forall k :: k in acc <==> k in order)
    && (forall k :: k in acc ==> acc[k] == multiset(p)[k])
  }

  /** The state of the `forEach` after the first `n` keys. */
  ghost predicate Tallied<T(!new)>(acc: map<T, nat>, order: seq<T>, keys: seq<T>, n: nat)
    requires n <= |keys|
  {
    Counted(acc, order, keys[..n])
  }

  /** Counting one more key bumps its count, and lists it when it is new. */
  lemma CountedSnoc<T(!new)>(acc: map<T, nat>, order: seq<T>, p: seq<T>, k: T, acc': map<T, nat>, order': seq<T>)
    requires Counted(acc, order, p)
    requires k in acc ==> acc' == acc[k := acc[k] + 1] && order' == order
    requires k !in acc ==> acc' == acc[k := 1] && order' == order + [k]
    ensures Counted(acc', order', p + [k])
  {
    DedupSnoc(p, k);
    assert multiset(p + [k]) == multiset(p) + multiset{k};
  }

  /** One step of the `forEach` keeps the count object in step with the keys read. */
  lemma TallyStep<T(!new)>(acc: map<T, nat>, order: seq<T>, keys: seq<T>, n: nat, acc': map<T, nat>, order': seq<T>)
    requires n < |keys| && Tallied(acc, order, keys, n)
    requires keys[n] in acc ==> acc' == acc[keys[n] := acc[keys[n]] + 1] && order' == order
    requires keys[n] !in acc ==> acc' == acc[keys[n] := 1] && order' == order + [keys[n]]
    ensures Tallied(acc', order', keys, n + 1)
  {
    var p, q := keys[..n], keys[..n + 1];
    assert q == p + [keys[n]];
    CountedSnoc(acc, order, p, keys[n], acc', order');
  }

  /** The `forEach` that fills the count object, followed by `Object.entries`. */
  method TallyOf(keys: seq<string>) returns (entries: seq<(string, nat)>)
    ensures entries == EntriesIn(JsKeyOrder(Dedup(keys)), keys)
  {
    var acc, order := FillCounts(keys);
    entries := ObjectEntries(acc, order);
    ObjectEntriesTallied(acc, order, keys);
  }

  /** The `forEach`: `acc[key] = (acc[key] || 0) + 1` for each key in turn. */
  method FillCounts<T(==,!new)>(keys: seq<T>) returns (acc: map<T, nat>, order: seq<T>)
    ensures Tallied(acc, order, keys, |keys|)
  {
    acc, order := map[], [];
    var i := 0;
    while i < |keys|
      invariant 0 <= i <= |keys|
      invariant Tallied(acc, order, keys, i)
    {
      var k := keys[i];
      var acc', order' := acc, order;
      if k in acc {
        acc' := acc[k := acc[k] + 1];
      } else {
        acc' := acc[k := 1];
        order' := order + [k];
      }
      TallyStep(acc, order, keys, i, acc', order');
      acc, order := acc', order';
      i := i + 1;
    }
  }

  // ---------------------------------------------------------------------------------------
  // The order of `Object.entries`

  /** An array index: the canonical decimal text of a number below 2^32 - 1, so "7" but not
      "07", "" or "4294967295". */
  predicate IsIndexKey(k: string) {
    |k| >= 1 && AllDigits(k) && (|k| == 1 || k[0] != '0') && DecimalValue(k) < 0xFFFF_FFFF
  }

  predicate NonIndexKey(k: string) {
    !IsIndexKey(k)
  }

  /** The number an index key stands for. */
  function KeyValue(k: string): nat {
    if AllDigits(k) then DecimalValue(k) else 0
  }

  /** Ascending numeric order of keys. */
  function NumericLe(): (string, string) -> bool {
    (a: string, b: string) => KeyValue(a) <= KeyValue(b)
  }

  lemma NumericLeTotal()
    ensures Total(NumericLe())
  {
  }

  /** The order `Object.entries` lists the keys of an object whose keys were inserted in
      `order`: the index keys by ascending value, then the other keys as inserted. It is a
      rearrangement of `order`; `JsKeyOrderShape` states the arrangement. */
  function JsKeyOrder(order: seq<string>): (r: seq<string>)
    ensures multiset(r) == multiset(order)
    ensures |r| == |order|
    ensures forall k :: k in r <==> k in order
  {
    NumericLeTotal();
    FilterPartition(order, IsIndexKey, NonIndexKey);
    var r := SortBy(Filter(order, IsIndexKey), NumericLe()) + Filter(order, NonIndexKey);
    assert |r| == |multiset(r)| == |multiset(order)| == |order|;
    assert forall k :: k in r <==> k in multiset(r);
    r
  }

  /** The first `n` keys, `n` the number of index keys, are index keys in ascending numeric
      order; the keys after them are the other keys in insertion order. */
  lemma JsKeyOrderShape(order: seq<string>)
    ensures var n := |Filter(order, IsIndexKey)|; var r := JsKeyOrder(order);
      n <= |r|
      && (forall i :: 0 <= i < n ==> IsIndexKey(r[i]))
      && (forall i :: 0 <= i < n - 1 ==> KeyValue(r[i]) <= KeyValue(r[i + 1]))
      && r[n..] == Filter(order, NonIndexKey)
  {
    NumericLeTotal();
    var f := Filter(order, IsIndexKey);
    var idx := SortBy(f, NumericLe());
    var r := JsKeyOrder(order);
    assert r == idx + Filter(order, NonIndexKey);
    forall i | 0 <= i < |f|
      ensures IsIndexKey(r[i])
    {
      assert r[i] == idx[i];
      assert idx[i] in multiset(idx);
      assert idx[i] in f;
    }
    forall i | 0 <= i < |f| - 1
      ensures KeyValue(r[i]) <= KeyValue(r[i + 1])
    {
      assert r[i] == idx[i] && r[i + 1] == idx[i + 1];
      assert NumericLe()(idx[i], idx[i + 1]);
    }
    assert r[|f|..] == Filter(order, NonIndexKey);
  }

  /** Listing an object's keys loses none, adds none and repeats none. */
  lemma JsKeyOrderDistinct(order: seq<string>)
    requires Distinct(order)
    ensures Distinct(JsKeyOrder(order))
  {
    DistinctMultiset(order);
    MultisetDistinct(JsKeyOrder(order));
  }

  /** Without index keys, `Object.entries` keeps the insertion order. */
  lemma {:induction false} NoIndexKeysInOrder(order: seq<string>)
    requires forall i :: 0 <= i < |order| ==> NonIndexKey(order[i])
    ensures JsKeyOrder(order) == order
  {
    FilterNone(order, IsIndexKey);
    FilterAll(order, NonIndexKey);
  }

  /** An object whose keys are no array indices, such as the status, department or priority
      names of a chart, lists them in the order they first occur. */
  lemma FirstSeenOrder(keys: seq<string>)
    requires forall i :: 0 <= i < |keys| ==> NonIndexKey(keys[i])
    ensures JsKeyOrder(Dedup(keys)) == Dedup(keys)
  {
    var d := Dedup(keys);
    forall i | 0 <= i < |d|
      ensures NonIndexKey(d[i])
    {
      assert d[i] in keys;
    }
    NoIndexKeysInOrder(d);
  }

  /** The arrangement `JsKeyOrder` builds. */
  lemma JsKeyOrderParts(order: seq<string>)
    ensures Total(NumericLe())
    ensures JsKeyOrder(order) == SortBy(Filter(order, IsIndexKey), NumericLe()) + Filter(order, NonIndexKey)
  {
    NumericLeTotal();
  }

  /** Of two index keys, both are kept by the index filter and none by the other. */
  lemma TwoIndexKeysFiltered(a: string, b: string)
    requires IsIndexKey(a) && IsIndexKey(b)
    ensures Filter([a, b], IsIndexKey) == [a, b] && Filter([a, b], NonIndexKey) == []
  {
    var order := [a, b];
    assert order[1..] == [b] && [b][1..] == [];
    assert Filter(order[1..], IsIndexKey) == [b];
    assert Filter(order[1..], NonIndexKey) == [];
  }

  /** Sorting two keys by value, the larger given first, swaps them. */
  lemma TwoKeysSorted(a: string, b: string)
    requires KeyValue(b) < KeyValue(a)
    ensures Total(NumericLe())
    ensures SortBy([a, b], NumericLe()) == [b, a]
  {
    var le := NumericLe();
    NumericLeTotal();
    assert [a, b][1..] == [b] && [b][1..] == [];
    var one := SortBy([b], le);
    assert one == [b] by {
      assert SortBy([b][1..], le) == [];
    }
    assert !le(a, b);
    assert Insert(a, one, le) == [b] + Insert(a, [], le);
  }

  /** Two index keys inserted larger first are listed smaller first. */
  lemma TwoIndexKeysSwap(a: string, b: string)
    requires IsIndexKey(a) && IsIndexKey(b) && KeyValue(b) < KeyValue(a)
    ensures JsKeyOrder([a, b]) == [b, a]
  {
    JsKeyOrderParts([a, b]);
    TwoIndexKeysFiltered(a, b);
    TwoKeysSorted(a, b);
    assert [b, a] + [] == [b, a];
  }

  /** Keys inserted as "3" and then "1" are listed as "1" and then "3". */
  lemma IndexKeysAscend()
    ensures JsKeyOrder(["3", "1"]) == ["1", "3"]
  {
    assert DecimalValue("3") == 3 && DecimalValue("1") == 1;
    TwoIndexKeysSwap("3", "1");
  }

  /** `Object.entries(acc)`: the keys in the order above, each with its count. */
  function ObjectEntries(acc: map<string, nat>, order: seq<string>): (r: seq<(string, nat)>)
    requires forall k :: k in order ==> k in acc
    ensures |r| == |order|
    ensures forall i :: 0 <= i < |r| ==> r[i].0 == JsKeyOrder(order)[i] && r[i].1 == acc[r[i].0]
  {
    var ks := JsKeyOrder(order);
    seq(|ks|, j requires 0 <= j < |ks| => (ks[j], acc[ks[j]]))
  }

  /** Once every key is read, the entries of the count object count each key's occurrences. */
  lemma ObjectEntriesTallied(acc: map<string, nat>, order: seq<string>, s: seq<string>)
    requires Tallied(acc, order, s, |s|)
    ensures forall k :: k in order ==> k in acc
    ensures ObjectEntries(acc, order) == EntriesIn(JsKeyOrder(Dedup(s)), s)
  {
    assert s[..|s|] == s;
  }

  /** Counting `x` over `ks` after one more occurrence of `y` adds one exactly when `y` is listed. */
  function SumOver<T(==)>(ks: seq<T>, s: seq<T>): nat
  {
    if ks == [] then 0 else multiset(s)[ks[0]] + SumOver(ks[1..], s)
  }

  lemma {:induction false} SumOverSnoc<T>(ks: seq<T>, s: seq<T>, y: T)
    requires Distinct(ks)
    ensures SumOver(ks, s + [y]) == SumOver(ks, s) + (if y in ks then 1 else 0)
  {
    if ks != [] {
      assert multiset(s + [y]) == multiset(s) + multiset{y};
      assert Distinct(ks[1..]);
      SumOverSnoc(ks[1..], s, y);
      assert y in ks <==> y == ks[0] || y in ks[1..];
    }
  }

  lemma {:induction false} SumOverSplit<T>(ks: seq<T>, y: T, s: seq<T>)
    ensures SumOver(ks + [y], s) == SumOver(ks, s) + multiset(s)[y]
  {
    if ks != [] {
      assert (ks + [y])[1..] == ks[1..] + [y];
      SumOverSplit(ks[1..], y, s);
    }
  }

  /** Every item is counted exactly once: the counts of the distinct keys add up to the length. */
  lemma {:induction false} DedupCountsSum<T(!new)>(s: seq<T>)
    ensures SumOver(Dedup(s), s) == |s|
  {
    if s != [] {
      var p, y := s[..|s| - 1], s[|s| - 1];
      assert s == p + [y];
      DedupCountsSum(p);
      var d := Dedup(p);
      SumOverSnoc(d, p, y);
      if y !in d {
        SumOverSplit(d, y, s);
        assert y !in p;
        assert multiset(s)[y] == 1;
      }
    }
  }

  lemma {:induction false} SumCountsIsSumOver<T>(ks: seq<T>, s: seq<T>)
    ensures SumCounts(EntriesIn(ks, s)) == SumOver(ks, s)
  {
    if ks != [] {
      assert EntriesIn(ks, s)[1..] == EntriesIn(ks[1..], s);
      SumCountsIsSumOver(ks[1..], s);
    }
  }

  /** Summing over a rearranged list of keys gives the same total. */
  lemma {:induction false} SumOverAppend<T>(a: seq<T>, b: seq<T>, s: seq<T>)
    ensures SumOver(a + b, s) == SumOver(a, s) + SumOver(b, s)
  {
    if a != [] {
      assert (a + b)[1..] == a[1..] + b;
      SumOverAppend(a[1..], b, s);
    } else {
      assert a + b == b;
    }
  }

  lemma {:induction false} SumOverPerm<T>(a: seq<T>, b: seq<T>, s: seq<T>)
    requires multiset(a) == multiset(b)
    ensures SumOver(a, s) == SumOver(b, s)
    decreases |a|
  {
    if a != [] {
      var x := a[0];
      assert x in multiset(b);
      var j :| 0 <= j < |b| && b[j] == x;
      var rest := b[..j] + b[j + 1..];
      assert b == b[..j] + [x] + b[j + 1..];
      SumOverAppend(b[..j] + [x], b[j + 1..], s);
      SumOverAppend(b[..j], [x], s);
      SumOverAppend(b[..j], b[j + 1..], s);
      assert a == [x] + a[1..];
      assert multiset(b) == multiset(b[..j]) + multiset{x} + multiset(b[j + 1..]);
      assert multiset(a) == multiset{x} + multiset(a[1..]);
      assert multiset(rest) == multiset(b[..j]) + multiset(b[j + 1..]);
      assert multiset(a[1..]) == multiset(a) - multiset{x};
      assert multiset(rest) == multiset(b) - multiset{x};
      SumOverPerm(a[1..], rest, s);
    }
  }

  /** The chart lists each key of `s` once and nothing else, whatever order it lists them in. */
  lemma EntriesKeys<T(!new)>(ks: seq<T>, s: seq<T>)
    requires multiset(ks) == multiset(Dedup(s))
    ensures forall i :: 0 <= i < |EntriesIn(ks, s)| ==> EntriesIn(ks, s)[i].0 in s
    ensures forall x :: x in s ==> exists k :: 0 <= k < |EntriesIn(ks, s)| && EntriesIn(ks, s)[k].0 == x
    ensures forall i, j :: 0 <= i < j < |EntriesIn(ks, s)| ==> EntriesIn(ks, s)[i].0 != EntriesIn(ks, s)[j].0
  {
    var d := Dedup(s);
    var es := EntriesIn(ks, s);
    forall i | 0 <= i < |ks|
      ensures ks[i] in s
    {
      assert ks[i] in multiset(ks);
      assert ks[i] in d;
    }
    forall x | x in s
      ensures exists k :: 0 <= k < |es| && es[k].0 == x
    {
      assert x in multiset(d);
      assert x in multiset(ks);
      var k :| 0 <= k < |ks| && ks[k] == x;
      assert es[k].0 == x;
    }
    DistinctMultiset(d);
    MultisetDistinct(ks);
  }

  /** The chart's entries account for every item once: their counts sum to the number of items,
      and each count is that key's number of occurrences. */
  lemma EntriesSum<T(!new)>(ks: seq<T>, s: seq<T>)
    requires multiset(ks) == multiset(Dedup(s))
    ensures SumCounts(EntriesIn(ks, s)) == |s|
    ensures forall i :: 0 <= i < |EntriesIn(ks, s)| ==> EntriesIn(ks, s)[i].1 == multiset(s)[EntriesIn(ks, s)[i].0] > 0
  {
    SumCountsIsSumOver(ks, s);
    SumOverPerm(ks, Dedup(s), s);
    DedupCountsSum(s);
    var es := EntriesIn(ks, s);
    forall i | 0 <= i < |es|
      ensures es[i].1 == multiset(s)[es[i].0] > 0
    {
      assert ks[i] in multiset(ks);
      assert ks[i] in Dedup(s);
    }
  }

  /** The chart data the dashboards build from a list of keys: each key once, with its number
      of occurrences, the counts adding up to the length of the list, the keys in the order
      `Object.entries` lists them. */
  method CountKeys(keys: seq<string>) returns (entries: seq<(string, nat)>)
    ensures |entries| == |Dedup(keys)|
    ensures forall i :: 0 <= i < |entries| ==> entries[i].0 == JsKeyOrder(Dedup(keys))[i]
    ensures SumCounts(entries) == |keys|
    ensures forall i :: 0 <= i < |entries| ==> entries[i].0 in keys
    ensures forall i :: 0 <= i < |entries| ==> entries[i].1 == multiset(keys)[entries[i].0] > 0
    ensures forall x :: x in keys ==> exists k :: 0 <= k < |entries| && entries[k].0 == x
    ensures forall i, j :: 0 <= i < j < |entries| ==> entries[i].0 != entries[j].0
  {
    var ks := JsKeyOrder(Dedup(keys));
    assert multiset(ks) == multiset(Dedup(keys));
    EntriesSum(ks, keys);
    EntriesKeys(ks, keys);
    entries := TallyOf(keys);
    assert entries == EntriesIn(ks, keys);
  }
}
