/** What the department and priority collections have in common: documents that are only a
    name, kept unique by the handlers' lookups, and listed by name. Each collection maps a
    document id to its name. */
module Catalog {
  import opened Common
  import opened Strings
  import opened Sorting
  import opened TicketModel

  /** The collection invariant: ids are valid ObjectIds, names are non-empty and trimmed (they
      are stored only after `trim` and the emptiness check), and no name is used twice. */
  ghost predicate CatalogValid(svc: Services, m: map<string, string>)
  {
    (forall id :: id in m ==> ValidId(svc, id) && m[id] != "" && Trimmed(m[id]))
    && (forall a, b :: a in m && b in m && a != b ==> m[a] != m[b])
  }

  /** A document other than `id` already has this name. */
  predicate NameHeldByOther(m: map<string, string>, name: string, id: string)
  {
    exists k :: k in m && k != id && m[k] == name
  }

  /** Some document has this name. */
  predicate NameTaken(m: map<string, string>, name: string)
  {
    exists k :: k in m && m[k] == name
  }

  /** In a valid collection a document's own name is never held by another one, so renaming a
      document to the name it has is not a clash; and a fresh id clashes exactly with a taken
      name. */
  lemma OwnNameFree(svc: Services, m: map<string, string>, id: string, newId: string, name: string)
    requires CatalogValid(svc, m) && newId !in m
    ensures id in m ==> !NameHeldByOther(m, m[id], id)
    ensures NameHeldByOther(m, name, newId) <==> NameTaken(m, name)
  {
  }

  /** Storing a trimmed, non-empty name that no other document holds keeps the invariant. */
  lemma CatalogPut(svc: Services, m: map<string, string>, id: string, name: string)
    requires CatalogValid(svc, m) && ValidId(svc, id) && name != "" && Trimmed(name)
    requires !NameHeldByOther(m, name, id)
    ensures CatalogValid(svc, m[id := name])
  {
  }

  lemma CatalogRemove(svc: Services, m: map<string, string>, id: string)
    requires CatalogValid(svc, m)
    ensures CatalogValid(svc, m - {id})
  {
  }

  /** `req.body?.name?.trim()` followed by `if (!name)`: the trimmed name, or `None` when it is
      missing or blank. */
  function RequestedName(name: Option<string>): (r: Option<string>)
    ensures r.Some? <==> name.Some? && Trim(name.value) != ""
    ensures r.Some? ==> r.value == Trim(name.value) && r.value != "" && Trimmed(r.value)
  {
    if name.Some? && Trim(name.value) != "" then
      TrimTrimmed(name.value);
      Some(Trim(name.value))
    else None
  }

  /** Ids ordered by their names, the order of `.sort({ name: 1 })`. */
  function ByName(m: map<string, string>): (string, string) -> bool
  {
    (a: string, b: string) => a !in m || b !in m || StrLe(m[a], m[b])
  }

  lemma ByNameTotal(m: map<string, string>)
    ensures Total(ByName(m))
  {
    forall a: string, b: string
      ensures ByName(m)(a, b) || ByName(m)(b, a)
    {
      if a in m && b in m {
        StrLeTotal(m[a], m[b]);
      }
    }
  }

  /** `find().sort({ name: 1 })`: every document once, as (id, name), in ascending name order. */
  method ListByName(m: map<string, string>) returns (entries: seq<(string, string)>)
    ensures |entries| == |m|
    ensures forall i :: 0 <= i < |entries| ==> entries[i].0 in m && entries[i].1 == m[entries[i].0]
    ensures forall id :: id in m ==> exists i :: 0 <= i < |entries| && entries[i].0 == id
    ensures forall i, j :: 0 <= i < j < |entries| ==> entries[i].0 != entries[j].0
    ensures forall i :: 0 <= i < |entries| - 1 ==> StrLe(entries[i].1, entries[i + 1].1)
  {
    var sorted := IdsByName(m);
    entries := Named(m, sorted);
    NamedInOrder(m, sorted);
    forall id | id in m
      ensures exists i :: 0 <= i < |entries| && entries[i].0 == id
    {
      var i :| 0 <= i < |sorted| && sorted[i] == id;
      assert entries[i].0 == id;
    }
  }

  /** Every id of `m` once, ordered by name. */
  method IdsByName(m: map<string, string>) returns (sorted: seq<string>)
    ensures |sorted| == |m| && Distinct(sorted)
    ensures forall k :: 0 <= k < |sorted| ==> sorted[k] in m
    ensures forall id :: id in m ==> id in sorted
    ensures SortedBy(sorted, ByName(m))
  {
    var ids := KeysOf(m);
    ByNameTotal(m);
    sorted := SortBy(ids, ByName(m));
    forall k | 0 <= k < |sorted|
      ensures sorted[k] in m
    {
      assert sorted[k] in multiset(sorted);
      assert sorted[k] in multiset(ids);
    }
    DistinctKeys(m, ids, sorted);
  }

  /** Each id of `ids` paired with its name, in the same order. */
  function Named(m: map<string, string>, ids: seq<string>): (r: seq<(string, string)>)
    requires forall k :: 0 <= k < |ids| ==> ids[k] in m
    ensures |r| == |ids|
    ensures forall i :: 0 <= i < |ids| ==> r[i] == (ids[i], m[ids[i]])
  {
    if ids == [] then [] else [(ids[0], m[ids[0]])] + Named(m, ids[1..])
  }

  /** Ids in name order give names in order. */
  lemma NamedInOrder(m: map<string, string>, ids: seq<string>)
    requires forall k :: 0 <= k < |ids| ==> ids[k] in m
    requires SortedBy(ids, ByName(m))
    ensures forall i :: 0 <= i < |ids| - 1 ==> StrLe(Named(m, ids)[i].1, Named(m, ids)[i + 1].1)
  {
    var r := Named(m, ids);
    forall i | 0 <= i < |ids| - 1
      ensures StrLe(r[i].1, r[i + 1].1)
    {
      assert ByName(m)(ids[i], ids[i + 1]);
    }
  }

  /** A reordering of a list of all keys, each once, again lists all keys once. */
  lemma DistinctKeys(m: map<string, string>, ids: seq<string>, sorted: seq<string>)
    requires Distinct(ids) && (forall k :: k in ids <==> k in m) && multiset(sorted) == multiset(ids)
    ensures |sorted| == |m| && Distinct(sorted) && forall k :: k in m ==> k in sorted
  {
    DistinctMultiset(ids);
    forall k | k in m
      ensures k in sorted
    {
      assert k in multiset(ids);
    }
    MultisetDistinct(sorted);
    KeysCard(m, ids);
  }

  /** A list of all keys, each once, is as long as the map. */
  lemma {:induction false} KeysCard(m: map<string, string>, ids: seq<string>)
    requires Distinct(ids) && forall k :: k in ids <==> k in m
    ensures |ids| == |m|
    decreases |ids|
  {
    if ids != [] {
      var k := ids[0];
      assert Distinct(ids[1..]);
      forall x
        ensures x in ids[1..] <==> x in m - {k}
      {
        if x in ids[1..] {
          var i :| 0 <= i < |ids[1..]| && ids[1..][i] == x;
          assert ids[i + 1] == x;
        }
        if x in m - {k} {
          assert x in ids;
          var i :| 0 <= i < |ids| && ids[i] == x;
          assert i != 0;
          assert ids[1..][i - 1] == x;
        }
      }
      KeysCard(m - {k}, ids[1..]);
    } else {
      assert m.Keys == {};
    }
  }
}
