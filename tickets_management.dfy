/** The list logic of the administrator's ticket page (`frontend/src/pages/admin/TicketsManagement.jsx`):
    the status options, the filter-and-sort pipeline, paging, the row selection, the local
    updates after bulk actions, and the CSV export. */
module TicketsManagement {
  import opened Common
  import opened Strings
  import opened Sorting
  import opened Tally
  import opened Catalog
  import opened Csv
  import opened ClientTicket

  const STATUS_ORDER: seq<string> := ["Open", "In Progress", "Pending Review", "Escalated", "Resolved", "Closed"]

  /** The page size the page starts with and never changes. */
  const PER_PAGE: nat := 10

  // ---------------------------------------------------------------------------------------
  // Paging

  /** `Pagination`'s button list: the pages from `page - 2` to `page + 2` that exist. */
  method PageButtons(page: int, perPage: nat, total: nat) returns (pages: seq<int>)
    requires perPage > 0
    ensures forall i :: 0 <= i < |pages| ==> pages[i] == Max(1, page - 2) + i
    ensures forall x :: x in pages <==> Max(1, page - 2) <= x <= Min(PageCount(total, perPage), page + 2)
    ensures forall i :: 0 <= i < |pages| ==> 1 <= pages[i] <= PageCount(total, perPage)
    ensures |pages| <= 5
    ensures 1 <= page <= PageCount(total, perPage) ==> page in pages
  {
    var totalPages := PageCount(total, perPage);
    var radius := 2;
    var lo, hi := Max(1, page - radius), Min(totalPages, page + radius);
    pages := [];
    var i := lo;
    while i <= hi
      invariant lo <= i <= Max(lo, hi + 1)
      invariant |pages| == i - lo
      invariant forall k :: 0 <= k < |pages| ==> pages[k] == lo + k
      decreases hi - i
    {
      pages := pages + [i];
      i := i + 1;
    }
    forall x | lo <= x <= hi
      ensures x in pages
    {
      assert pages[x - lo] == x;
    }
  }

  /** `safePage`: the requested page pulled into the existing range. */
  function SafePage(page: int, total: nat, perPage: nat): (r: nat)
    requires perPage > 0
    ensures 1 <= r <= PageCount(total, perPage)
    ensures 1 <= page <= PageCount(total, perPage) ==> r == page
    ensures page < 1 ==> r == 1
    ensures page > PageCount(total, perPage) ==> r == PageCount(total, perPage)
  {
    Min(Max(1, page), PageCount(total, perPage))
  }

  /** `pageItems`: at most a page of the list, the page `safePage` picks. */
  function PageItems(filtered: seq<Ticket>, page: int, perPage: nat): (r: seq<Ticket>)
    requires perPage > 0
    ensures |r| <= perPage
    ensures var start := PageStart(SafePage(page, |filtered|, perPage), perPage);
      start <= |filtered| && r == filtered[start..Min(start + perPage, |filtered|)]
    ensures filtered != [] ==> r != []
  {
    var sp := SafePage(page, |filtered|, perPage);
    var start := PageStart(sp, perPage);
    assert start <= |filtered| && (|filtered| > 0 ==> start < |filtered|) by {
      PageStartInside(sp, |filtered|, perPage);
    }
    // `filtered.slice((safePage - 1) * perPage, safePage * perPage)`
    Window(filtered, start, perPage)
  }

  /** The "Showing a - b of total" caption. */
  function Shown(page: int, perPage: nat, total: nat): (int, int)
  {
    (Min(total, (page - 1) * perPage + 1), Min(total, page * perPage))
  }

  /** For the page on display the caption counts exactly the rows shown, and names their
      positions. */
  lemma ShownMatchesItems(filtered: seq<Ticket>, page: int, perPage: nat)
    requires perPage > 0 && filtered != []
    ensures var sp := SafePage(page, |filtered|, perPage);
      var (a, b) := Shown(sp, perPage, |filtered|);
      a == PageStart(sp, perPage) + 1 && b - a + 1 == |PageItems(filtered, page, perPage)|
  {
    var sp := SafePage(page, |filtered|, perPage);
    PageStartInside(sp, |filtered|, perPage);
    var start := PageStart(sp, perPage);
    var items := PageItems(filtered, page, perPage);
    assert items == filtered[start..Min(start + perPage, |filtered|)];
    assert Shown(sp, perPage, |filtered|) == (start + 1, Min(|filtered|, start + perPage));
  }

  // ---------------------------------------------------------------------------------------
  // Status options

  /** The position of `x` in `order`, or `|order|` when it is not listed. */
  function IndexOf(order: seq<string>, x: string): (r: nat)
    ensures r <= |order|
    ensures r < |order| <==> x in order
    ensures r < |order| ==> order[r] == x
  {
    if order == [] then 0
    else if order[0] == x then 0
    else 1 + IndexOf(order[1..], x)
  }

  lemma {:induction false} IndexOfDistinct(order: seq<string>, i: nat)
    requires Distinct(order) && i < |order|
    ensures IndexOf(order, order[i]) == i
  {
    if i > 0 {
      assert Distinct(order[1..]);
      assert order[1..][i - 1] == order[i];
      IndexOfDistinct(order[1..], i - 1);
    }
  }

  function StrOrder(): (string, string) -> bool
  {
    (a: string, b: string) => StrLe(a, b)
  }

  lemma StrOrderTotal()
    ensures Total(StrOrder())
  {
    forall a: string, b: string
      ensures StrOrder()(a, b) || StrOrder()(b, a)
    {
      StrLeTotal(a, b);
    }
  }

  function NonEmpty(): string -> bool { (s: string) => s != "" }
  function Listed(present: seq<string>): string -> bool { (st: string) => st in present }
  function NotIn(order: seq<string>): string -> bool { (x: string) => x !in order }

  /** `new Set(tickets.map((t) => t.status).filter(Boolean))`, in insertion order. */
  function PresentStatuses(ts: seq<Ticket>): (r: seq<string>)
    ensures forall x :: x in r <==> x != "" && x in StatusesOf(ts)
    ensures Distinct(r)
  {
    Dedup(Filter(StatusesOf(ts), NonEmpty()))
  }

  /** `arranged`: the present statuses that `order` lists, in its order. */
  function Arranged(order: seq<string>, present: seq<string>): seq<string>
  {
    Filter(order, Listed(present))
  }

  /** `rest`: the other present statuses, sorted. */
  function Rest(order: seq<string>, present: seq<string>): seq<string>
  {
    StrOrderTotal();
    SortBy(Filter(present, NotIn(order)), StrOrder())
  }

  /** The options after "All". */
  function OptionsBody(ts: seq<Ticket>): seq<string>
  {
    var present := PresentStatuses(ts);
    Arranged(STATUS_ORDER, present) + Rest(STATUS_ORDER, present)
  }

  /** `statuses`: "All", the statuses present in `STATUS_ORDER`'s order, then the other present
      statuses in `sort` order. */
  function StatusOptions(ts: seq<Ticket>): (r: seq<string>)
    ensures |r| >= 1 && r[0] == "All"
  {
    ["All"] + OptionsBody(ts)
  }

  lemma RestMembers(order: seq<string>, present: seq<string>, x: string)
    ensures x in Rest(order, present) <==> x in present && x !in order
  {
    StrOrderTotal();
    SortByKeepsElements(Filter(present, NotIn(order)), StrOrder(), x);
  }

  /** After "All" the options list every non-empty status some ticket has, and nothing else. */
  lemma StatusOptionsMembers(ts: seq<Ticket>)
    ensures forall x :: x in OptionsBody(ts) <==> x != "" && x in StatusesOf(ts)
  {
    forall x
      ensures x in OptionsBody(ts) <==> x != "" && x in StatusesOf(ts)
    {
      RestMembers(STATUS_ORDER, PresentStatuses(ts), x);
    }
  }

  lemma BodyDistinct(order: seq<string>, present: seq<string>)
    requires Distinct(order) && Distinct(present)
    ensures Distinct(Arranged(order, present) + Rest(order, present))
  {
    var arranged, rest := Arranged(order, present), Rest(order, present);
    var body := arranged + rest;
    FilterDistinct(order, Listed(present));
    var unknown := Filter(present, NotIn(order));
    FilterDistinct(present, NotIn(order));
    DistinctMultiset(unknown);
    StrOrderTotal();
    assert rest == SortBy(unknown, StrOrder());
    MultisetDistinct(rest);
    forall i, j | 0 <= i < j < |body|
      ensures body[i] != body[j]
    {
      if i < |arranged| && j >= |arranged| {
        assert body[i] in arranged;
        assert body[j] in rest;
        RestMembers(order, present, body[j]);
      }
    }
  }

  /** After "All" no option is listed twice. */
  lemma StatusOptionsDistinct(ts: seq<Ticket>)
    ensures Distinct(OptionsBody(ts))
  {
    assert Distinct(STATUS_ORDER);
    BodyDistinct(STATUS_ORDER, PresentStatuses(ts));
  }

  /** The listed statuses keep the order of `order`. */
  lemma ArrangedIncreasing(order: seq<string>, present: seq<string>)
    requires Distinct(order)
    ensures forall i, j :: 0 <= i < j < |Arranged(order, present)| ==>
      IndexOf(order, Arranged(order, present)[i]) < IndexOf(order, Arranged(order, present)[j])
  {
    var rank := (x: string) => IndexOf(order, x);
    forall i, j | 0 <= i < j < |order|
      ensures rank(order[i]) < rank(order[j])
    {
      IndexOfDistinct(order, i);
      IndexOfDistinct(order, j);
    }
    FilterIncreasing(order, Listed(present), rank);
  }

  /** The unlisted statuses are ascending and have no position in `order`. */
  lemma RestFacts(order: seq<string>, present: seq<string>)
    ensures forall k :: 0 <= k < |Rest(order, present)| - 1 ==> StrLe(Rest(order, present)[k], Rest(order, present)[k + 1])
    ensures forall k :: 0 <= k < |Rest(order, present)| ==> IndexOf(order, Rest(order, present)[k]) == |order|
  {
    var rest := Rest(order, present);
    StrOrderTotal();
    assert SortedBy(rest, StrOrder());
    forall k | 0 <= k < |rest| - 1
      ensures StrLe(rest[k], rest[k + 1])
    {
      assert StrOrder()(rest[k], rest[k + 1]);
    }
    forall k | 0 <= k < |rest|
      ensures IndexOf(order, rest[k]) == |order|
    {
      RestMembers(order, present, rest[k]);
    }
  }

  /** Ranks never fall from one option to the next, and options without a rank ascend. */
  predicate InOptionOrder(order: seq<string>, a: string, b: string) {
    IndexOf(order, a) < IndexOf(order, b) || (IndexOf(order, a) == IndexOf(order, b) == |order| && StrLe(a, b))
  }

  lemma BodyStep(order: seq<string>, present: seq<string>, i: nat)
    requires Distinct(order)
    requires i + 1 < |Arranged(order, present) + Rest(order, present)|
    ensures var body := Arranged(order, present) + Rest(order, present);
      InOptionOrder(order, body[i], body[i + 1])
  {
    var arranged, rest := Arranged(order, present), Rest(order, present);
    var body := arranged + rest;
    if i + 1 < |arranged| {
      ArrangedIncreasing(order, present);
      assert body[i] == arranged[i] && body[i + 1] == arranged[i + 1];
    } else if i + 1 == |arranged| {
      assert body[i] == arranged[i] && body[i] in order;
      RestFacts(order, present);
      assert body[i + 1] == rest[0];
    } else {
      RestFacts(order, present);
      var k := i - |arranged|;
      assert body[i] == rest[k] && body[i + 1] == rest[k + 1];
    }
  }

  lemma BodyOrder(order: seq<string>, present: seq<string>)
    requires Distinct(order)
    ensures var body := Arranged(order, present) + Rest(order, present);
      forall i :: 0 <= i < |body| - 1 ==> InOptionOrder(order, body[i], body[i + 1])
  {
    var body := Arranged(order, present) + Rest(order, present);
    forall i | 0 <= i < |body| - 1
      ensures InOptionOrder(order, body[i], body[i + 1])
    {
      BodyStep(order, present, i);
    }
  }

  /** After "All" the known statuses come first, in workflow order, and the other statuses follow
      in ascending order. */
  lemma StatusOptionsOrder(ts: seq<Ticket>)
    ensures var body := OptionsBody(ts);
      forall i :: 0 <= i < |body| - 1 ==> InOptionOrder(STATUS_ORDER, body[i], body[i + 1])
  {
    assert Distinct(STATUS_ORDER);
    BodyOrder(STATUS_ORDER, PresentStatuses(ts));
  }

  // ---------------------------------------------------------------------------------------
  // The filter-and-sort pipeline

  /** The columns the table can be sorted by. */
  datatype Field = ByTitle | ByCreatedBy | ByPriority | ByStatus | ByCreatedAt

  datatype Dir = Asc | Desc

  /** The page's filter and sort controls; "All" switches a filter off. */
  datatype View = View(query: string, status: string, priority: string, department: string, sortBy: Field, dir: Dir)

  /** `String(r._id ?? r.id ?? r.name)`, the key a populated reference is filtered by. */
  function ObjKey(r: Ref): string
    requires r.RefObj?
  {
    if r.oid.Some? then r.oid.value
    else if r.altId.Some? then r.altId.value
    else if r.name.Some? then r.name.value
    else "undefined"
  }

  /** The priority and department filters: a missing reference never matches, a string must
      equal the key and an object must have it as its key. */
  predicate RefMatches(r: Ref, key: string) {
    RefTruthy(r) && (if r.RefText? then r.s == key else ObjKey(r) == key)
  }

  /** The search text as the pipeline uses it: trimmed, then lower-cased. */
  function QueryOf(v: View): string
  {
    Lower(Trim(v.query))
  }

  /** The search filter: title, description or the creator's name contains the query. */
  predicate QueryMatches(t: Ticket, q: string) {
    Contains(Lower(t.title), q)
    || (t.description.Some? && Contains(Lower(t.description.value), q))
    || (NameKey(t.createdBy).Some? && Contains(Lower(NameKey(t.createdBy).value), q))
  }

  function StatusIs(status: string): Ticket -> bool { (t: Ticket) => t.status == status }
  function PriorityIs(key: string): Ticket -> bool { (t: Ticket) => RefMatches(t.priority, key) }
  function DepartmentIs(key: string): Ticket -> bool { (t: Ticket) => RefMatches(t.department, key) }
  function Mentions(q: string): Ticket -> bool { (t: Ticket) => QueryMatches(t, q) }

  /** A ticket passes every filter that is switched on. */
  predicate Keeps(t: Ticket, v: View) {
    (v.status == "All" || t.status == v.status)
    && (v.priority == "All" || RefMatches(t.priority, v.priority))
    && (v.department == "All" || RefMatches(t.department, v.department))
    && (|QueryOf(v)| == 0 || QueryMatches(t, QueryOf(v)))
  }

  /** `list` holds each ticket of `base` that passes `on ==> keep`, as often as `base` does. */
  ghost predicate CountsAs(list: seq<Ticket>, base: seq<Ticket>, on: bool, keep: Ticket -> bool) {
    forall t :: multiset(list)[t] == if !on || keep(t) then multiset(base)[t] else 0
  }

  /** One optional filter step of the pipeline. */
  lemma FilterStep(base: seq<Ticket>, on: bool, keep: Ticket -> bool)
    ensures CountsAs(if on then Filter(base, keep) else base, base, on, keep)
  {
    if on {
      forall t
        ensures multiset(Filter(base, keep))[t] == if keep(t) then multiset(base)[t] else 0
      {
        FilterMultiset(base, keep, t);
      }
    }
  }

  /** The four steps together keep exactly the tickets `Keeps` admits. */
  lemma PipelineCounts(l0: seq<Ticket>, l1: seq<Ticket>, l2: seq<Ticket>, l3: seq<Ticket>, l4: seq<Ticket>, v: View)
    requires CountsAs(l1, l0, v.status != "All", StatusIs(v.status))
    requires CountsAs(l2, l1, v.priority != "All", PriorityIs(v.priority))
    requires CountsAs(l3, l2, v.department != "All", DepartmentIs(v.department))
    requires CountsAs(l4, l3, |QueryOf(v)| > 0, Mentions(QueryOf(v)))
    ensures forall t :: multiset(l4)[t] == if Keeps(t, v) then multiset(l0)[t] else 0
  {
  }

  /** `getValue`: the lower-cased text a column is sorted by. */
  function SortKey(t: Ticket, f: Field): (r: string)
    ensures Lower(r) == r
  {
    match f
    case ByCreatedBy => if NameKey(t.createdBy).Some? then Lower(NameKey(t.createdBy).value) else ""
    case ByPriority =>
      if !RefTruthy(t.priority) then ""
      else if t.priority.RefText? then Lower(t.priority.s)
      else if t.priority.name.Some? then Lower(t.priority.name.value)
      else Lower("[object Object]")
    case ByTitle => Lower(t.title)
    case ByStatus => Lower(t.status)
    case ByCreatedAt => Lower(t.createdAt)
  }

  /** The comparator reduced to "may come first": ascending or descending key order. */
  function Order(f: Field, dir: Dir): (Ticket, Ticket) -> bool
  {
    (a: Ticket, b: Ticket) => if dir == Asc then StrLe(SortKey(a, f), SortKey(b, f)) else StrLe(SortKey(b, f), SortKey(a, f))
  }

  lemma OrderTotal(f: Field, dir: Dir)
    ensures Total(Order(f, dir))
  {
    forall a: Ticket, b: Ticket
      ensures Order(f, dir)(a, b) || Order(f, dir)(b, a)
    {
      StrLeTotal(SortKey(a, f), SortKey(b, f));
    }
  }

  /** The comparator chains, so `SortByStable` applies: tickets with equal keys keep the order
      the filters left them in. */
  lemma OrderTransitive(f: Field, dir: Dir)
    ensures Transitive(Order(f, dir))
  {
    forall a: Ticket, b: Ticket, c: Ticket | Order(f, dir)(a, b) && Order(f, dir)(b, c)
      ensures Order(f, dir)(a, c)
    {
      if dir == Asc {
        StrLeTrans(SortKey(a, f), SortKey(b, f), SortKey(c, f));
      } else {
        StrLeTrans(SortKey(c, f), SortKey(b, f), SortKey(a, f));
      }
    }
  }

  /** `filtered`: the tickets that pass every filter, each as often as it occurs, sorted by the
      chosen column in the chosen direction. */
  method Filtered(tickets: seq<Ticket>, v: View) returns (list: seq<Ticket>)
    ensures forall t :: multiset(list)[t] == if Keeps(t, v) then multiset(tickets)[t] else 0
    ensures forall t :: t in list <==> t in tickets && Keeps(t, v)
    ensures forall i :: 0 <= i < |list| - 1 ==>
      if v.dir == Asc then StrLe(SortKey(list[i], v.sortBy), SortKey(list[i + 1], v.sortBy))
      else StrLe(SortKey(list[i + 1], v.sortBy), SortKey(list[i], v.sortBy))
  {
    var q := Lower(Trim(v.query));
    list := tickets;
    ghost var l0 := list;
    if v.status != "All" {
      list := Filter(list, StatusIs(v.status));
    }
    FilterStep(l0, v.status != "All", StatusIs(v.status));
    ghost var l1 := list;
    if v.priority != "All" {
      list := Filter(list, PriorityIs(v.priority));
    }
    FilterStep(l1, v.priority != "All", PriorityIs(v.priority));
    ghost var l2 := list;
    if v.department != "All" {
      list := Filter(list, DepartmentIs(v.department));
    }
    FilterStep(l2, v.department != "All", DepartmentIs(v.department));
    ghost var l3 := list;
    if |q| > 0 {
      list := Filter(list, Mentions(q));
    }
    FilterStep(l3, |q| > 0, Mentions(q));
    PipelineCounts(l0, l1, l2, l3, list, v);
    ghost var l4 := list;
    OrderTotal(v.sortBy, v.dir);
    list := SortBy(list, Order(v.sortBy, v.dir));
    SortedOutcome(tickets, l4, list, v);
  }

  lemma SortedOutcome(tickets: seq<Ticket>, kept: seq<Ticket>, list: seq<Ticket>, v: View)
    requires forall t :: multiset(kept)[t] == if Keeps(t, v) then multiset(tickets)[t] else 0
    requires multiset(list) == multiset(kept) && SortedBy(list, Order(v.sortBy, v.dir))
    ensures forall t :: multiset(list)[t] == if Keeps(t, v) then multiset(tickets)[t] else 0
    ensures forall t :: t in list <==> t in tickets && Keeps(t, v)
    ensures forall i :: 0 <= i < |list| - 1 ==>
      if v.dir == Asc then StrLe(SortKey(list[i], v.sortBy), SortKey(list[i + 1], v.sortBy))
      else StrLe(SortKey(list[i + 1], v.sortBy), SortKey(list[i], v.sortBy))
  {
    forall t
      ensures t in list <==> t in tickets && Keeps(t, v)
    {
      assert t in list <==> multiset(list)[t] > 0;
      assert t in tickets <==> multiset(tickets)[t] > 0;
    }
    forall i | 0 <= i < |list| - 1
      ensures if v.dir == Asc then StrLe(SortKey(list[i], v.sortBy), SortKey(list[i + 1], v.sortBy))
              else StrLe(SortKey(list[i + 1], v.sortBy), SortKey(list[i], v.sortBy))
    {
      assert Order(v.sortBy, v.dir)(list[i], list[i + 1]);
    }
  }

  /** With every filter off and an empty search, the pipeline keeps every ticket. */
  lemma NoFilterKeepsAll(t: Ticket, sortBy: Field, dir: Dir, blank: string)
    requires AllWhite(blank)
    ensures Keeps(t, View(blank, "All", "All", "All", sortBy, dir))
  {
    TrimEmptyIff(blank);
  }

  /** `toggleSort`: the current column flips direction, another column starts descending. */
  function ToggleSort(field: Field, dir: Dir, clicked: Field): (r: (Field, Dir))
    ensures r.0 == clicked
    ensures clicked == field ==> r.1 != dir
    ensures clicked != field ==> r.1 == Desc
  {
    if clicked == field then (field, if dir == Asc then Desc else Asc) else (clicked, Desc)
  }

  /** Clicking the same column twice restores the order; clicking a new column twice sorts it
      ascending. */
  lemma ToggleSortTwice(field: Field, dir: Dir, clicked: Field)
    ensures var (f1, d1) := ToggleSort(field, dir, clicked);
      ToggleSort(f1, d1, clicked) == (clicked, if clicked == field then dir else Asc)
  {
  }

  // ---------------------------------------------------------------------------------------
  // Selection

  /** `toggleSelect` on a copy of the set. */
  function Toggled(selected: set<string>, id: string): (r: set<string>)
    ensures id in r <==> id !in selected
    ensures forall x :: x != id ==> (x in r <==> x in selected)
  {
    if id in selected then selected - {id} else selected + {id}
  }

  /** Toggling one id twice gives back the selection. */
  lemma ToggleTwice(selected: set<string>, id: string)
    ensures Toggled(Toggled(selected, id), id) == selected
  {
  }

  /** The selected ticket ids and the "select the whole page" checkbox. */
  class Selection {
    var selected: set<string>
    var selectAllPage: bool

    constructor ()
      ensures selected == {} && !selectAllPage
    {
      selected := {};
      selectAllPage := false;
    }

    method ToggleSelect(id: string)
      modifies this
      ensures selected == Toggled(old(selected), id)
      ensures selectAllPage == old(selectAllPage)
    {
      var next := selected;
      if id in next {
        next := next - {id};
      } else {
        next := next + {id};
      }
      selected := next;
    }

    /** `toggleSelectAllOnPage`: the page's ids all leave the selection when the checkbox was
        on, and all join it when it was off; no other id changes. */
    method ToggleSelectAllOnPage(pageItems: seq<Ticket>)
      modifies this
      ensures old(selectAllPage) ==> selected == old(selected) - IdsOf(pageItems) && !selectAllPage
      ensures !old(selectAllPage) ==> selected == old(selected) + IdsOf(pageItems) && selectAllPage
    {
      var next := selected;
      var i := 0;
      while i < |pageItems|
        invariant 0 <= i <= |pageItems|
        invariant selectAllPage ==> next == selected - IdsOf(pageItems[..i])
        invariant !selectAllPage ==> next == selected + IdsOf(pageItems[..i])
      {
        assert IdsOf(pageItems[..i + 1]) == IdsOf(pageItems[..i]) + {pageItems[i].id} by {
          assert pageItems[..i + 1] == pageItems[..i] + [pageItems[i]];
        }
        if selectAllPage {
          next := next - {pageItems[i].id};
        } else {
          next := next + {pageItems[i].id};
        }
        i := i + 1;
      }
      assert pageItems[..i] == pageItems;
      selected := next;
      selectAllPage := !selectAllPage;
    }

    /** The effect that clears the checkbox once some row of the page is not selected. */
    method SyncSelectAll(pageItems: seq<Ticket>)
      modifies this
      ensures selected == old(selected)
      ensures selectAllPage <==> old(selectAllPage) && IdsOf(pageItems) <= selected
    {
      var someMissing := exists i :: 0 <= i < |pageItems| && pageItems[i].id !in selected;
      if someMissing && selectAllPage {
        selectAllPage := false;
      }
    }

    /** `setSelected(new Set())` after a bulk action. */
    method Clear()
      modifies this
      ensures selected == {} && selectAllPage == old(selectAllPage)
    {
      selected := {};
    }
  }

  // ---------------------------------------------------------------------------------------
  // Local updates after the server confirmed an action

  /** The list after a bulk status change: every selected ticket gets the new status and
      nothing else about any ticket changes. */
  function BulkStatus(ts: seq<Ticket>, selected: set<string>, status: string): (r: seq<Ticket>)
    ensures |r| == |ts|
    ensures forall i :: 0 <= i < |ts| ==> r[i].(status := ts[i].status) == ts[i]
    ensures forall i :: 0 <= i < |ts| ==> r[i].status == if ts[i].id in selected then status else ts[i].status
  {
    seq(|ts|, i requires 0 <= i < |ts| => if ts[i].id in selected then ts[i].(status := status) else ts[i])
  }

  /** The list after a bulk delete: the tickets whose id is not selected, each as often as
      before and in their order. */
  function BulkDelete(ts: seq<Ticket>, selected: set<string>): (r: seq<Ticket>)
    ensures forall t :: t in r <==> t in ts && t.id !in selected
    ensures forall t :: multiset(r)[t] == if t.id in selected then 0 else multiset(ts)[t]
    ensures SubsequenceOf(r, ts)
    ensures IdsOf(r) == IdsOf(ts) - selected
  {
    var keep := (t: Ticket) => t.id !in selected;
    FilterSubsequence(ts, keep);
    KeptCounts(ts, selected);
    KeptIds(ts, selected);
    Filter(ts, keep)
  }

  lemma KeptCounts(ts: seq<Ticket>, selected: set<string>)
    ensures forall t :: multiset(Filter(ts, (t: Ticket) => t.id !in selected))[t] == if t.id in selected then 0 else multiset(ts)[t]
  {
    forall t
      ensures multiset(Filter(ts, (t: Ticket) => t.id !in selected))[t] == if t.id in selected then 0 else multiset(ts)[t]
    {
      FilterMultiset(ts, (t: Ticket) => t.id !in selected, t);
    }
  }

  lemma KeptIds(ts: seq<Ticket>, selected: set<string>)
    ensures IdsOf(Filter(ts, (t: Ticket) => t.id !in selected)) == IdsOf(ts) - selected
  {
    var r := Filter(ts, (t: Ticket) => t.id !in selected);
    forall id | id in IdsOf(r)
      ensures id in IdsOf(ts) - selected
    {
      var i :| 0 <= i < |r| && r[i].id == id;
      assert r[i] in ts;
      var j :| 0 <= j < |ts| && ts[j] == r[i];
    }
    forall id | id in IdsOf(ts) - selected
      ensures id in IdsOf(r)
    {
      var j :| 0 <= j < |ts| && ts[j].id == id;
      assert ts[j] in r;
      var i :| 0 <= i < |r| && r[i] == ts[j];
    }
  }

  /** The list after one ticket's status change: the server's copy replaces the local one. */
  function ReplaceById(ts: seq<Ticket>, updated: Ticket): (r: seq<Ticket>)
    ensures |r| == |ts|
    ensures forall i :: 0 <= i < |ts| ==> r[i] == if ts[i].id == updated.id then updated else ts[i]
    ensures IdsOf(r) == IdsOf(ts)
  {
    var r := seq(|ts|, i requires 0 <= i < |ts| => if ts[i].id == updated.id then updated else ts[i]);
    assert forall i :: 0 <= i < |ts| ==> r[i].id == ts[i].id;
    r
  }

  // ---------------------------------------------------------------------------------------
  // CSV export

  /** `Object.keys` of the first exported record. */
  const HEADERS: seq<string> := ["id", "title", "description", "status", "priority", "department", "createdBy", "createdAt"]

  /** The name a reference is exported under: a string as it is, an object's name, or "". */
  function ExportName(r: Ref): string
  {
    if r.RefText? then r.s else NameOr(r, "")
  }

  /** The exported record of one ticket, in `HEADERS` order, each value as `String(v ?? "")`
      renders it. */
  function ExportValues(t: Ticket): (r: seq<string>)
    ensures |r| == |HEADERS|
    ensures r[0] == t.id && r[1] == t.title && r[3] == t.status && r[7] == t.createdAt
  {
    [t.id, t.title, if t.description.Some? then t.description.value else "", t.status,
     ExportName(t.priority), ExportName(t.department), NameOr(t.createdBy, ""), t.createdAt]
  }

  /** One data line of the file: every value escaped, joined by commas. */
  function ExportCells(t: Ticket): (cells: seq<string>)
    ensures |cells| == |HEADERS|
  {
    var vs := ExportValues(t);
    seq(|vs|, k requires 0 <= k < |vs| => EscapeCell(vs[k]))
  }

  /** The data lines of the file, one per ticket. */
  function ExportLines(ts: seq<Ticket>): (r: seq<string>)
    ensures |r| == |ts| && forall i :: 0 <= i < |ts| ==> r[i] == Join(ExportCells(ts[i]), ",")
  {
    seq(|ts|, i requires 0 <= i < |ts| => Join(ExportCells(ts[i]), ","))
  }

  /** `downloadCSV`: nothing when there is no ticket to export; otherwise the header line, then
      one line of escaped cells per ticket. */
  function ExportCsv(ts: seq<Ticket>): (r: Option<string>)
    ensures r.None? <==> ts == []
    ensures r.Some? ==> r.value == Join(HEADERS, ",") + Concat(EachAfter("\n", ExportLines(ts)))
  {
    if ts == [] then None
    else
      JoinAsLines(Join(HEADERS, ","), ExportLines(ts), "\n");
      Some(Join([Join(HEADERS, ",")] + ExportLines(ts), "\n"))
  }

  /** Every cell of an exported line is one well quoted field that reads back as its value. */
  lemma ExportCellsRoundTrip(t: Ticket)
    ensures forall k :: 0 <= k < |HEADERS| ==>
      WellQuoted(ExportCells(t)[k]) && Unquote(ExportCells(t)[k]) == ExportValues(t)[k]
  {
    forall k | 0 <= k < |HEADERS|
      ensures WellQuoted(ExportCells(t)[k]) && Unquote(ExportCells(t)[k]) == ExportValues(t)[k]
    {
      EscapeRoundTrip(ExportValues(t)[k]);
    }
  }
}
