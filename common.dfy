/** Value types shared by the backend handlers and the client pages. */
module Common {

  datatype Option<T> = None | Some(value: T)

  /** A request value as a handler receives it in a JSON body: absent, null, or a string. */
  datatype JsVal = Undefined | Null | Str(s: string)

  /** JavaScript truthiness of a request value: only a non-empty string is truthy. */
  predicate Truthy(v: JsVal) {
    v.Str? && v.s != ""
  }

  /** Truthiness of an optional string (`undefined`/`null` and "" are falsy). */
  predicate Present(v: Option<string>) {
    v.Some? && v.value != ""
  }

  /** What a handler sends back: the HTTP status code and the `message` of the JSON body. */
  datatype Reply = Reply(code: int, message: string)

  /** The library calls the backend makes and the model does not look into:
      `mongoose.Types.ObjectId.isValid`, `bcrypt.hash` (salt left out, so `bcrypt.compare(p, h)`
      is `bcryptHash(p) == h`) and the hex SHA-256 digest of `crypto.createHash`. */
  datatype Services = Services(
    isObjectId: string -> bool,
    bcryptHash: string -> string,
    sha256Hex: string -> string)

  /** `Math.ceil(a / b)` on non-negative integers. */
  function CeilDiv(a: nat, b: nat): (r: nat)
    requires b > 0
    ensures r * b >= a
    ensures r > 0 ==> (r - 1) * b < a
  {
    var q := (a + b - 1) / b;
    assert a + b - 1 == q * b + (a + b - 1) % b;
    q
  }

  /** `Math.max(1, Math.ceil(a / b))`, the page count of a table that always shows one page. */
  function PageCount(a: nat, b: nat): (r: nat)
    requires b > 0
    ensures r >= 1
    ensures r * b >= a
    ensures r > 1 ==> (r - 1) * b < a
  {
    var c := CeilDiv(a, b);
    if c < 1 then 1 else c
  }

  /** How `Array.prototype.slice` resolves one of its bounds against a length. */
  function SliceBound(i: int, len: nat): (r: nat)
    ensures r <= len
    ensures 0 <= i <= len ==> r == i
  {
    if i < 0 then (if len + i < 0 then 0 else len + i) else if i > len then len else i
  }

  /** `s.slice(start, end)`. */
  function JsSlice<T>(s: seq<T>, start: int, end: int): (r: seq<T>)
    ensures |r| <= |s|
    ensures 0 <= start <= end ==> |r| <= end - start
    ensures 0 <= start <= end <= |s| ==> r == s[start..end]
    ensures 0 <= start <= |s| <= end ==> r == s[start..]
  {
    var lo, hi := SliceBound(start, |s|), SliceBound(end, |s|);
    if lo < hi then s[lo..hi] else []
  }

  function Max(a: int, b: int): int { if a < b then b else a }
  function Min(a: int, b: int): int { if a < b then a else b }

  lemma MulMono(a: nat, b: nat, c: nat)
    requires a <= b
    ensures a * c <= b * c
  {
  }

  /** Multiplying by a positive factor keeps a strict order, read backwards. */
  lemma MulLess(a: nat, b: nat, c: nat)
    requires a * c < b * c
    ensures a < b
  {
    if b <= a {
      MulMono(b, a, c);
    }
  }

  /** Taking one member out of a finite set shrinks it by one. */
  lemma RemoveOneCard<T>(a: set<T>, x: T)
    requires x in a
    ensures |a - {x}| == |a| - 1
  {
    assert a == (a - {x}) + {x};
  }

  /** A map has no entries exactly when it is the empty map. */
  lemma MapSizeZero<K, V>(m: map<K, V>)
    ensures |m| == 0 <==> m == map[]
  {
    if |m| == 0 {
      assert m.Keys == {};
    }
  }

  lemma MulSucc(a: nat, b: nat)
    ensures (a + 1) * b == a * b + b
  {
  }

  /** The index of a page's first row. */
  function PageStart(page: nat, perPage: nat): (r: nat)
    requires page >= 1
  {
    (page - 1) * perPage
  }

  /** The first index of an existing page lies inside the list, and before its end unless the
      list is empty; the page ends one page size further on. */
  lemma PageStartInside(page: nat, total: nat, perPage: nat)
    requires perPage > 0 && 1 <= page <= PageCount(total, perPage)
    ensures PageStart(page, perPage) <= total
    ensures total > 0 ==> PageStart(page, perPage) < total
    ensures page * perPage == PageStart(page, perPage) + perPage
  {
    var pc := PageCount(total, perPage);
    if page > 1 {
      MulMono(page - 1, pc - 1, perPage);
    }
    MulSucc(page - 1, perPage);
  }

  /** `s.slice(start, start + len)` for a start inside the list. */
  function Window<T>(s: seq<T>, start: nat, len: nat): (r: seq<T>)
    requires start <= |s|
    ensures r == s[start..Min(start + len, |s|)]
    ensures |r| <= len
    ensures start < |s| && len > 0 ==> r != []
  {
    JsSlice(s, start, start + len)
  }

  /** A slice holds only elements of the sequence it was cut from. */
  lemma SliceMembers<T>(s: seq<T>, start: int, end: int, x: T)
    ensures x in JsSlice(s, start, end) ==> x in s
  {
    var lo, hi := SliceBound(start, |s|), SliceBound(end, |s|);
    if lo < hi {
      assert JsSlice(s, start, end) == s[lo..hi];
    }
  }

  /** `parts.join(sep)`. */
  function Join(parts: seq<string>, sep: string): string
  {
    if parts == [] then ""
    else if |parts| == 1 then parts[0]
    else parts[0] + sep + Join(parts[1..], sep)
  }

  /** `parts.join("")` is the concatenation of the parts, so it indexes into them in order. */
  lemma {:induction false} JoinEmptySepIsConcat(parts: seq<string>)
    ensures Join(parts, "") == Concat(parts)
  {
    if |parts| > 1 {
      JoinEmptySepIsConcat(parts[1..]);
    } else if |parts| == 1 {
      assert Concat(parts) == parts[0] + Concat([]);
    }
  }

  function Concat(parts: seq<string>): string
  {
    if parts == [] then "" else parts[0] + Concat(parts[1..])
  }

  /** Each part with `sep` in front of it. */
  function EachAfter(sep: string, parts: seq<string>): (r: seq<string>)
    ensures |r| == |parts| && forall i :: 0 <= i < |parts| ==> r[i] == sep + parts[i]
  {
    seq(|parts|, i requires 0 <= i < |parts| => sep + parts[i])
  }

  /** Joining a first part and then the rest is the first part followed by every later part,
      each after its separator. */
  lemma {:induction false} JoinAsLines(first: string, rest: seq<string>, sep: string)
    ensures Join([first] + rest, sep) == first + Concat(EachAfter(sep, rest))
    decreases |rest|
  {
    if rest != [] {
      assert ([first] + rest)[1..] == [rest[0]] + rest[1..];
      JoinAsLines(rest[0], rest[1..], sep);
      assert EachAfter(sep, rest)[1..] == EachAfter(sep, rest[1..]);
    }
  }

  /** A concatenation splits around any one of its parts. */
  lemma {:induction false} ConcatSplit(parts: seq<string>, k: nat)
    requires k < |parts|
    ensures Concat(parts) == Concat(parts[..k]) + parts[k] + Concat(parts[k + 1..])
  {
    if k > 0 {
      ConcatSplit(parts[1..], k - 1);
      assert parts[1..][..k - 1] == parts[..k][1..];
      assert parts[1..][k - 1 + 1..] == parts[k + 1..];
    }
  }

  /** `s.filter(p)`: the elements that satisfy `p`, in their order. */
  function Filter<T(!new)>(s: seq<T>, p: T -> bool): (r: seq<T>)
    ensures |r| <= |s|
    ensures forall x :: x in r <==> x in s && p(x)
    ensures forall i :: 0 <= i < |r| ==> p(r[i])
  {
    if s == [] then []
    else
      assert forall x :: x in s <==> x == s[0] || x in s[1..];
      (if p(s[0]) then [s[0]] else []) + Filter(s[1..], p)
  }

  /** `r` is `s` with some elements left out: what remains keeps its order. */
  predicate SubsequenceOf<T(==)>(r: seq<T>, s: seq<T>)
    decreases |s|
  {
    r == [] || (s != [] && ((r[0] == s[0] && SubsequenceOf(r[1..], s[1..])) || SubsequenceOf(r, s[1..])))
  }

  /** What a filter keeps comes in the order of the list it was taken from. */
  lemma {:induction false} FilterSubsequence<T(!new)>(s: seq<T>, p: T -> bool)
    ensures SubsequenceOf(Filter(s, p), s)
  {
    if s != [] {
      FilterSubsequence(s[1..], p);
      if p(s[0]) {
        assert Filter(s, p) == [s[0]] + Filter(s[1..], p);
        assert Filter(s, p)[1..] == Filter(s[1..], p);
      } else {
        assert Filter(s, p) == Filter(s[1..], p);
      }
    }
  }

  /** Filtering keeps every occurrence of what it keeps and none of the rest. */
  lemma {:induction false} FilterMultiset<T(!new)>(s: seq<T>, p: T -> bool, x: T)
    ensures multiset(Filter(s, p))[x] == if p(x) then multiset(s)[x] else 0
  {
    if s != [] {
      FilterMultiset(s[1..], p, x);
      assert s == [s[0]] + s[1..];
      assert multiset(s) == multiset{s[0]} + multiset(s[1..]);
    }
  }

  /** What one filter keeps and its complement keeps make up the whole list. */
  lemma FilterPartition<T(!new)>(s: seq<T>, p: T -> bool, q: T -> bool)
    requires forall x :: q(x) == !p(x)
    ensures multiset(Filter(s, p)) + multiset(Filter(s, q)) == multiset(s)
  {
    forall x
      ensures (multiset(Filter(s, p)) + multiset(Filter(s, q)))[x] == multiset(s)[x]
    {
      FilterMultiset(s, p, x);
      FilterMultiset(s, q, x);
    }
  }

  /** A filter nothing fails keeps the list; one nothing passes empties it. */
  lemma {:induction false} FilterAll<T(!new)>(s: seq<T>, p: T -> bool)
    requires forall i :: 0 <= i < |s| ==> p(s[i])
    ensures Filter(s, p) == s
  {
    if s != [] {
      FilterAll(s[1..], p);
      assert s == [s[0]] + s[1..];
    }
  }

  lemma {:induction false} FilterNone<T(!new)>(s: seq<T>, p: T -> bool)
    requires forall i :: 0 <= i < |s| ==> !p(s[i])
    ensures Filter(s, p) == []
  {
    if s != [] {
      FilterNone(s[1..], p);
    }
  }

  lemma {:induction false} FilterAppend<T(!new)>(a: seq<T>, b: seq<T>, p: T -> bool)
    ensures Filter(a + b, p) == Filter(a, p) + Filter(b, p)
  {
    if a != [] {
      assert (a + b)[1..] == a[1..] + b;
      FilterAppend(a[1..], b, p);
    } else {
      assert a + b == b;
    }
  }

  /** `s.filter(p).length`. */
  function Count<T(!new)>(s: seq<T>, p: T -> bool): (n: nat)
    ensures n <= |s|
  {
    |Filter(s, p)|
  }

  /** A subset is no larger than its superset. */
  lemma {:induction false} SubsetCard<T>(a: set<T>, b: set<T>)
    requires a <= b
    ensures |a| <= |b|
    decreases a
  {
    if a != {} {
      var x :| x in a;
      SubsetCard(a - {x}, b - {x});
    }
  }

  /** No element occurs twice. */
  predicate Distinct<T(==)>(s: seq<T>) {
    forall i, j :: 0 <= i < j < |s| ==> s[i] != s[j]
  }

  /** A list that counts each element at most once has no repeats. */
  lemma MultisetDistinct<T>(s: seq<T>)
    requires forall x :: multiset(s)[x] <= 1
    ensures Distinct(s)
  {
    forall i, j | 0 <= i < j < |s|
      ensures s[i] != s[j]
    {
      assert s == s[..j] + s[j..];
      assert s[..j][i] == s[i] && s[j..][0] == s[j];
      assert multiset(s)[s[j]] == multiset(s[..j])[s[j]] + multiset(s[j..])[s[j]];
      assert s[i] in multiset(s[..j]) && s[j] in multiset(s[j..]);
    }
  }

  /** A list without repeats counts each element once. */
  lemma {:induction false} DistinctMultiset<T>(s: seq<T>)
    requires Distinct(s)
    ensures forall x :: multiset(s)[x] <= 1
  {
    if s != [] {
      assert Distinct(s[1..]);
      DistinctMultiset(s[1..]);
      assert s == [s[0]] + s[1..];
      assert s[0] !in s[1..];
    }
  }

  /** Filtering a list without repeats gives a list without repeats. */
  lemma {:induction false} FilterDistinct<T(!new)>(s: seq<T>, p: T -> bool)
    requires Distinct(s)
    ensures Distinct(Filter(s, p))
  {
    if s != [] {
      assert Distinct(s[1..]);
      FilterDistinct(s[1..], p);
      assert s[0] !in Filter(s[1..], p);
    }
  }

  /** Filtering keeps the relative order of what it keeps: a rank that strictly increases
      along `s` strictly increases along the filtered list. */
  lemma {:induction false} FilterIncreasing<T(!new)>(s: seq<T>, p: T -> bool, rank: T -> int)
    requires forall i, j :: 0 <= i < j < |s| ==> rank(s[i]) < rank(s[j])
    ensures forall i, j :: 0 <= i < j < |Filter(s, p)| ==> rank(Filter(s, p)[i]) < rank(Filter(s, p)[j])
  {
    if s != [] {
      FilterIncreasing(s[1..], p, rank);
      var r := Filter(s[1..], p);
      forall x | x in r
        ensures rank(s[0]) < rank(x)
      {
        var k :| 0 <= k < |s[1..]| && s[1..][k] == x;
        assert s[k + 1] == x;
      }
    }
  }

  /** The keys of a map in some order, each exactly once. */
  method KeysOf<K, V>(m: map<K, V>) returns (ks: seq<K>)
    ensures Distinct(ks)
    ensures forall k :: k in ks <==> k in m
  {
    ks := [];
    var rest := m.Keys;
    while rest != {}
      invariant forall k :: k in m <==> k in rest || k in ks
      invariant forall k :: k in ks ==> k !in rest
      invariant Distinct(ks)
      decreases rest
    {
      var k :| k in rest;
      ks := ks + [k];
      rest := rest - {k};
    }
  }
}
