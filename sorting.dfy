/** Ordering a sequence by a caller-supplied "comes no later than" relation, the way
    `Array.prototype.sort` and a database `sort` order documents. */
module Sorting {
  import opened Common

  /** `le` relates every pair one way or the other, as a comparator does once it has been
      reduced to "a may come before b". */
  ghost predicate Total<T(!new)>(le: (T, T) -> bool) {
    forall a, b :: le(a, b) || le(b, a)
  }

  /** `le` chains: what comes no later than something that comes no later than `c` comes no
      later than `c`. Every comparator that orders by a key is transitive. */
  ghost predicate Transitive<T(!new)>(le: (T, T) -> bool) {
    forall a, b, c :: le(a, b) && le(b, c) ==> le(a, c)
  }

  /** The elements that `le` ties with `k`: those a comparator calls equal to it. */
  function TiedWith<T>(le: (T, T) -> bool, k: T): T -> bool {
    (y: T) => le(k, y) && le(y, k)
  }

  /** Each element comes no later than the next one under `le`. */
  predicate SortedBy<T>(s: seq<T>, le: (T, T) -> bool) {
    forall i :: 0 <= i < |s| - 1 ==> le(s[i], s[i + 1])
  }

  /** Inserting `x` into a sorted sequence ahead of the first element it may precede. */
  function Insert<T(!new)>(x: T, s: seq<T>, le: (T, T) -> bool): (r: seq<T>)
    requires Total(le)
    requires SortedBy(s, le)
    ensures multiset(r) == multiset(s) + multiset{x}
    ensures |r| == |s| + 1
    ensures SortedBy(r, le)
    ensures r[0] == x || (s != [] && r[0] == s[0])
  {
    if s == [] then [x]
    else if le(x, s[0]) then [x] + s
    else
      var rest := Insert(x, s[1..], le);
      assert s == [s[0]] + s[1..];
      [s[0]] + rest
  }

  /** The sequence reordered so that it is sorted by `le`; nothing is added or lost. */
  function SortBy<T(!new)>(s: seq<T>, le: (T, T) -> bool): (r: seq<T>)
    requires Total(le)
    ensures multiset(r) == multiset(s)
    ensures |r| == |s|
    ensures SortedBy(r, le)
  {
    if s == [] then []
    else
      assert s == [s[0]] + s[1..];
      Insert(s[0], SortBy(s[1..], le), le)
  }

  /** Sorting keeps exactly the elements it was given. */
  lemma SortByKeepsElements<T(!new)>(s: seq<T>, le: (T, T) -> bool, x: T)
    requires Total(le)
    ensures x in SortBy(s, le) <==> x in s
  {
    var r := SortBy(s, le);
    assert x in r <==> x in multiset(r);
    assert x in s <==> x in multiset(s);
  }

  lemma FilterCons<T(!new)>(x: T, t: seq<T>, p: T -> bool)
    ensures Filter([x] + t, p) == (if p(x) then [x] else []) + Filter(t, p)
  {
    assert ([x] + t)[1..] == t;
  }

  /** Any two elements tied with `k` may come in either order. */
  ghost predicate TiesChain<T(!new)>(le: (T, T) -> bool, k: T) {
    forall a, b :: TiedWith(le, k)(a) && TiedWith(le, k)(b) ==> le(a, b)
  }

  lemma TransitiveTiesChain<T(!new)>(le: (T, T) -> bool, k: T)
    requires Transitive(le)
    ensures TiesChain(le, k)
  {
    forall a, b | TiedWith(le, k)(a) && TiedWith(le, k)(b)
      ensures le(a, b)
    {
      assert le(a, k) && le(k, b);
    }
  }

  lemma SwapAroundEmpty<T>(a: seq<T>, b: seq<T>, rest: seq<T>)
    requires a == [] || b == []
    ensures b + (a + rest) == a + (b + rest)
  {
    if a == [] {
      assert a + rest == rest && a + (b + rest) == b + rest;
    } else {
      assert b + (a + rest) == a + rest && b + rest == rest;
    }
  }

  /** Inserting `x` puts it after every element it ties with: among those, it comes first
      exactly as if it had been put in front. */
  lemma {:induction false} InsertTies<T(!new)>(x: T, t: seq<T>, le: (T, T) -> bool, k: T)
    requires Total(le) && TiesChain(le, k) && SortedBy(t, le)
    ensures Filter(Insert(x, t, le), TiedWith(le, k)) == Filter([x] + t, TiedWith(le, k))
  {
    var e := TiedWith(le, k);
    if t == [] {
      assert Insert(x, t, le) == [x] + t;
    } else if le(x, t[0]) {
      assert Insert(x, t, le) == [x] + t;
    } else {
      var t1 := t[1..];
      var a, b := if e(x) then [x] else [], if e(t[0]) then [t[0]] else [];
      assert a == [] || b == [];
      InsertTies(x, t1, le, k);
      calc {
        Filter(Insert(x, t, le), e);
        { assert Insert(x, t, le) == [t[0]] + Insert(x, t1, le); }
        Filter([t[0]] + Insert(x, t1, le), e);
        { FilterCons(t[0], Insert(x, t1, le), e); }
        b + Filter(Insert(x, t1, le), e);
        { FilterCons(x, t1, e); }
        b + (a + Filter(t1, e));
        { SwapAroundEmpty(a, b, Filter(t1, e)); }
        a + (b + Filter(t1, e));
        { FilterCons(t[0], t1, e); assert [t[0]] + t1 == t; }
        a + Filter(t, e);
        { FilterCons(x, t, e); }
        Filter([x] + t, e);
      }
    }
  }

  /** `SortBy` is stable: the elements a comparator ties with any `k` keep the order they had. */
  lemma {:induction false} SortByStable<T(!new)>(s: seq<T>, le: (T, T) -> bool, k: T)
    requires Total(le) && Transitive(le)
    ensures Filter(SortBy(s, le), TiedWith(le, k)) == Filter(s, TiedWith(le, k))
  {
    if s != [] {
      TransitiveTiesChain(le, k);
      SortByStable(s[1..], le, k);
      InsertTies(s[0], SortBy(s[1..], le), le, k);
      FilterCons(s[0], SortBy(s[1..], le), TiedWith(le, k));
      assert s == [s[0]] + s[1..];
      FilterCons(s[0], s[1..], TiedWith(le, k));
    }
  }
}
