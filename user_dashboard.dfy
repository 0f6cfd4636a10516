/** The employee's dashboard (`frontend/src/pages/user/UserDashboard.jsx`): the status counts, the
    searched and sorted ticket list with its pages, the chart counts, and the list after a
    delete. */
module UserDashboard {
  import opened Common
  import opened Strings
  import opened Sorting
  import opened Tally
  import opened ClientTicket

  const PAGE_SIZE: nat := 6

  // ---------------------------------------------------------------------------------------
  // Status counts

  function HasStatus(status: string): Ticket -> bool { (t: Ticket) => t.status == status }

  /** The statuses the counters show, in their order. */
  const COUNTED: seq<string> := ["Open", "In Progress", "Pending Review", "Escalated", "Resolved", "Closed"]

  function Unlisted(): Ticket -> bool { (t: Ticket) => t.status !in COUNTED }

  datatype Counts = Counts(total: nat, open: nat, inProgress: nat, pending: nat, escalated: nat, resolved: nat, closed: nat)

  /** `counts`: the number of tickets, and for each status the number of tickets that have it. */
  function CountsOf(ts: seq<Ticket>): (c: Counts)
    ensures c.total == |ts|
    ensures c.open == Count(ts, HasStatus("Open")) && c.inProgress == Count(ts, HasStatus("In Progress"))
    ensures c.pending == Count(ts, HasStatus("Pending Review")) && c.escalated == Count(ts, HasStatus("Escalated"))
    ensures c.resolved == Count(ts, HasStatus("Resolved")) && c.closed == Count(ts, HasStatus("Closed"))
    ensures var m := multiset(StatusesOf(ts));
      c.open == m["Open"] && c.inProgress == m["In Progress"] && c.pending == m["Pending Review"]
      && c.escalated == m["Escalated"] && c.resolved == m["Resolved"] && c.closed == m["Closed"]
  {
    CountIsOccurrences(ts, "Open");
    CountIsOccurrences(ts, "In Progress");
    CountIsOccurrences(ts, "Pending Review");
    CountIsOccurrences(ts, "Escalated");
    CountIsOccurrences(ts, "Resolved");
    CountIsOccurrences(ts, "Closed");
    Counts(|ts|, |Filter(ts, HasStatus("Open"))|, |Filter(ts, HasStatus("In Progress"))|,
           |Filter(ts, HasStatus("Pending Review"))|, |Filter(ts, HasStatus("Escalated"))|,
           |Filter(ts, HasStatus("Resolved"))|, |Filter(ts, HasStatus("Closed"))|)
  }

  /** The status of each ticket, in order. */
  function StatusesOf(ts: seq<Ticket>): (r: seq<string>)
    ensures |r| == |ts| && forall i :: 0 <= i < |ts| ==> r[i] == ts[i].status
  {
    seq(|ts|, i requires 0 <= i < |ts| => ts[i].status)
  }

  /** The tickets in a state are as many as the occurrences of that state among the statuses. */
  lemma {:induction false} CountIsOccurrences(ts: seq<Ticket>, status: string)
    ensures Count(ts, HasStatus(status)) == multiset(StatusesOf(ts))[status]
    decreases |ts|
  {
    if ts != [] {
      assert StatusesOf(ts) == [ts[0].status] + StatusesOf(ts[1..]);
      CountStep(ts, status);
      CountIsOccurrences(ts[1..], status);
    }
  }

  function CountedSum(c: Counts): nat
  {
    c.open + c.inProgress + c.pending + c.escalated + c.resolved + c.closed
  }

  function Ind(t: Ticket, status: string): nat { if t.status == status then 1 else 0 }

  /** One ticket falls under exactly one counter, or under none of the six. */
  lemma OneCounter(t: Ticket)
    ensures Ind(t, "Open") + Ind(t, "In Progress") + Ind(t, "Pending Review") + Ind(t, "Escalated")
      + Ind(t, "Resolved") + Ind(t, "Closed") + (if t.status !in COUNTED then 1 else 0) == 1
  {
  }

  lemma CountStep(ts: seq<Ticket>, status: string)
    requires ts != []
    ensures Count(ts, HasStatus(status)) == Ind(ts[0], status) + Count(ts[1..], HasStatus(status))
  {
  }

  /** The six counters of a list are those of its tail plus the first ticket's indicators. */
  lemma CountersStep(ts: seq<Ticket>)
    requires ts != []
    ensures CountedSum(CountsOf(ts)) == Ind(ts[0], "Open") + Ind(ts[0], "In Progress") + Ind(ts[0], "Pending Review")
      + Ind(ts[0], "Escalated") + Ind(ts[0], "Resolved") + Ind(ts[0], "Closed") + CountedSum(CountsOf(ts[1..]))
  {
    CountStep(ts, "Open");
    CountStep(ts, "In Progress");
    CountStep(ts, "Pending Review");
    CountStep(ts, "Escalated");
    CountStep(ts, "Resolved");
    CountStep(ts, "Closed");
  }

  lemma UnlistedStep(ts: seq<Ticket>)
    requires ts != []
    ensures Count(ts, Unlisted()) == (if ts[0].status !in COUNTED then 1 else 0) + Count(ts[1..], Unlisted())
  {
  }

  /** Every ticket is counted under exactly one counter, unless its status is none of the six:
      the six counters and the uncounted tickets add up to the total. */
  lemma {:induction false} CountsAddUp(ts: seq<Ticket>)
    ensures CountedSum(CountsOf(ts)) + Count(ts, Unlisted()) == CountsOf(ts).total
  {
    if ts != [] {
      CountsAddUp(ts[1..]);
      CountersStep(ts);
      UnlistedStep(ts);
      OneCounter(ts[0]);
    }
  }

  /** When every ticket has one of the six statuses (which the ticket schema enforces), the
      counters add up to the total. */
  lemma CountersCoverAll(ts: seq<Ticket>)
    requires forall i :: 0 <= i < |ts| ==> ts[i].status in COUNTED
    ensures CountedSum(CountsOf(ts)) == CountsOf(ts).total
  {
    CountsAddUp(ts);
    var r := Filter(ts, Unlisted());
    forall x
      ensures multiset(r)[x] == 0
    {
      FilterMultiset(ts, Unlisted(), x);
    }
    assert multiset(r) == multiset{};
    assert |r| == |multiset(r)|;
  }

  // ---------------------------------------------------------------------------------------
  // The ticket list

  /** The search: the title or the description contains the lower-cased text. */
  predicate Matches(t: Ticket, text: string) {
    Contains(Lower(t.title), text) || (t.description.Some? && Contains(Lower(t.description.value), text))
  }

  /** A ticket is listed: its status is the chosen one (or the filter is "All") and it matches
      the search text. */
  predicate Listed(t: Ticket, search: string, status: string) {
    (status == "All" || t.status == status) && Matches(t, Lower(search))
  }

  function ListedBy(search: string, status: string): Ticket -> bool { (t: Ticket) => Listed(t, search, status) }

  /** Newest first: `new Date(b.createdAt) - new Date(a.createdAt)`; `when` is the time
      `new Date` reads from a `createdAt` string. */
  function NewestFirst(when: string -> int): (r: (Ticket, Ticket) -> bool)
    ensures Total(r) && Transitive(r)
    ensures forall a: Ticket, b: Ticket :: when(a.createdAt) > when(b.createdAt) ==> !r(b, a)
  {
    (a: Ticket, b: Ticket) => when(b.createdAt) <= when(a.createdAt)
  }

  /** `filteredTickets`: the listed tickets, each as often as it occurs, newest first. */
  function FilteredTickets(ts: seq<Ticket>, search: string, status: string, when: string -> int): (r: seq<Ticket>)
    ensures forall t :: multiset(r)[t] == if Listed(t, search, status) then multiset(ts)[t] else 0
    ensures forall t :: t in r <==> t in ts && Listed(t, search, status)
    ensures forall i :: 0 <= i < |r| - 1 ==> when(r[i + 1].createdAt) <= when(r[i].createdAt)
  {
    var kept := Filter(ts, ListedBy(search, status));
    var r := SortBy(kept, NewestFirst(when));
    assert forall t :: multiset(r)[t] == if Listed(t, search, status) then multiset(ts)[t] else 0 by {
      forall t
        ensures multiset(r)[t] == if Listed(t, search, status) then multiset(ts)[t] else 0
      {
        FilterMultiset(ts, ListedBy(search, status), t);
      }
    }
    assert forall t :: t in r <==> t in ts && Listed(t, search, status) by {
      forall t
        ensures t in r <==> t in ts && Listed(t, search, status)
      {
        assert t in r <==> multiset(r)[t] > 0;
        assert t in ts <==> multiset(ts)[t] > 0;
      }
    }
    assert forall i :: 0 <= i < |r| - 1 ==> NewestFirst(when)(r[i], r[i + 1]);
    r
  }

  /** The search text is not trimmed: a search of one space hides a one-word ticket without a
      description. */
  lemma SearchNotTrimmed()
    ensures !Listed(Ticket("t1", "Printer", None, "Open", NoRef, NoRef, NoRef, NoRef, ""), " ", "All")
  {
    var title := Lower("Printer");
    forall i | 0 <= i <= |title| - 1
      ensures !OccursAt(title, " ", i)
    {
      assert title[i..i + 1][0] == title[i];
    }
    ContainsIff(title, " ");
  }

  /** An empty search lists every ticket of the chosen status. */
  lemma EmptySearchListsAll(t: Ticket, status: string)
    requires status == "All" || t.status == status
    ensures Listed(t, "", status)
  {
    ContainsEmpty(Lower(t.title));
  }

  // ---------------------------------------------------------------------------------------
  // Pages

  /** `totalPages = Math.ceil(length / pageSize)`: no page at all for an empty list. */
  function TotalPages(n: nat): (r: nat)
    ensures r == 0 <==> n == 0
    ensures n <= r * PAGE_SIZE
    ensures r > 0 ==> (r - 1) * PAGE_SIZE < n
  {
    CeilDiv(n, PAGE_SIZE)
  }

  /** `paginatedTickets`: at most six tickets, those of the given page. */
  function Paginated(filtered: seq<Ticket>, page: nat): (r: seq<Ticket>)
    requires page >= 1
    ensures |r| <= PAGE_SIZE
    ensures PageStart(page, PAGE_SIZE) <= |filtered| ==>
      r == filtered[PageStart(page, PAGE_SIZE)..Min(PageStart(page, PAGE_SIZE) + PAGE_SIZE, |filtered|)]
    ensures PageStart(page, PAGE_SIZE) >= |filtered| ==> r == []
  {
    JsSlice(filtered, (page - 1) * PAGE_SIZE, page * PAGE_SIZE)
  }

  /** The Next button as written: disabled only on the page equal to `totalPages`. */
  function NextEnabledAsWritten(page: nat, totalPages: nat): (r: bool)
    ensures !r <==> page == totalPages
    ensures totalPages == 0 && page >= 1 ==> r
  {
    page != totalPages
  }

  /** With no ticket at all there are no pages, yet Next is enabled on page 1 and leads to a
      page 2 that cannot exist. */
  lemma NextPastEndAsWritten(filtered: seq<Ticket>)
    requires filtered == []
    ensures TotalPages(|filtered|) == 0
    ensures NextEnabledAsWritten(1, TotalPages(|filtered|))
    ensures 2 > Max(1, TotalPages(|filtered|)) && Paginated(filtered, 2) == []
  {
  }

  /** The Next button enabled only before the last page. */
  function NextEnabled(page: nat, totalPages: nat): bool
  {
    page < totalPages
  }

  /** The page after a click on Prev (enabled off page 1) or Next. */
  function AfterClick(page: nat, next: bool, totalPages: nat): (r: nat)
    ensures r == page || (next && page < totalPages && r == page + 1) || (!next && page >= 2 && r + 1 == page)
    ensures next && page < totalPages ==> r == page + 1
    ensures !next && page >= 2 ==> r + 1 == page
  {
    if next && NextEnabled(page, totalPages) then page + 1
    else if !next && page != 1 && page > 0 then page - 1
    else page
  }

  /** With the corrected Next button the page stays between 1 and the last page that can hold a
      ticket, whatever is clicked. */
  lemma ClicksStayInRange(page: nat, next: bool, totalPages: nat)
    requires 1 <= page <= Max(1, totalPages)
    ensures 1 <= AfterClick(page, next, totalPages) <= Max(1, totalPages)
  {
  }

  /** A page in that range shows a ticket whenever there is one to show. */
  lemma InRangePageNotEmpty(filtered: seq<Ticket>, page: nat)
    requires filtered != [] && 1 <= page <= Max(1, TotalPages(|filtered|))
    ensures Paginated(filtered, page) != []
  {
    var tp := TotalPages(|filtered|);
    if page > 1 {
      MulMono(page - 1, tp - 1, PAGE_SIZE);
    }
  }

  // ---------------------------------------------------------------------------------------
  // Chart counts

  /** `t.priority?.name || "Unknown"`: a bare string has no name. */
  function PriorityLabel(t: Ticket): (n: string)
    ensures n != ""
  {
    NameOr(t.priority, "Unknown")
  }

  function DepartmentLabel(t: Ticket): (n: string)
    ensures n != ""
  {
    NameOr(t.department, "Unknown")
  }

  function PriorityKeys(ts: seq<Ticket>): (r: seq<string>)
    ensures |r| == |ts| && forall i :: 0 <= i < |ts| ==> r[i] == PriorityLabel(ts[i])
  {
    seq(|ts|, i requires 0 <= i < |ts| => PriorityLabel(ts[i]))
  }

  function DepartmentKeys(ts: seq<Ticket>): (r: seq<string>)
    ensures |r| == |ts| && forall i :: 0 <= i < |ts| ==> r[i] == DepartmentLabel(ts[i])
  {
    seq(|ts|, i requires 0 <= i < |ts| => DepartmentLabel(ts[i]))
  }

  /** `ticketsByStatus`: every ticket counted once, under its status. */
  method TicketsByStatus(ts: seq<Ticket>) returns (entries: seq<(string, nat)>)
    ensures |entries| == |Dedup(StatusesOf(ts))|
    ensures forall i :: 0 <= i < |entries| ==> entries[i].0 == JsKeyOrder(Dedup(StatusesOf(ts)))[i]
    ensures SumCounts(entries) == |ts|
    ensures forall i :: 0 <= i < |entries| ==> entries[i].1 == multiset(StatusesOf(ts))[entries[i].0] > 0
    ensures forall i :: 0 <= i < |ts| ==> exists k :: 0 <= k < |entries| && entries[k].0 == ts[i].status
  {
    entries := CountKeys(StatusesOf(ts));
    assert forall i :: 0 <= i < |ts| ==> StatusesOf(ts)[i] in StatusesOf(ts);
  }

  /** `ticketsByPriority`: every ticket counted once, under its priority's name or "Unknown". */
  method TicketsByPriority(ts: seq<Ticket>) returns (entries: seq<(string, nat)>)
    ensures |entries| == |Dedup(PriorityKeys(ts))|
    ensures forall i :: 0 <= i < |entries| ==> entries[i].0 == JsKeyOrder(Dedup(PriorityKeys(ts)))[i]
    ensures SumCounts(entries) == |ts|
    ensures forall i :: 0 <= i < |entries| ==> entries[i].1 == multiset(PriorityKeys(ts))[entries[i].0] > 0
    ensures forall i :: 0 <= i < |ts| ==> exists k :: 0 <= k < |entries| && entries[k].0 == PriorityLabel(ts[i])
  {
    entries := CountKeys(PriorityKeys(ts));
    assert forall i :: 0 <= i < |ts| ==> PriorityKeys(ts)[i] in PriorityKeys(ts);
  }

  /** `ticketsByDept`: every ticket counted once, under its department's name or "Unknown". */
  method TicketsByDept(ts: seq<Ticket>) returns (entries: seq<(string, nat)>)
    ensures |entries| == |Dedup(DepartmentKeys(ts))|
    ensures forall i :: 0 <= i < |entries| ==> entries[i].0 == JsKeyOrder(Dedup(DepartmentKeys(ts)))[i]
    ensures SumCounts(entries) == |ts|
    ensures forall i :: 0 <= i < |entries| ==> entries[i].1 == multiset(DepartmentKeys(ts))[entries[i].0] > 0
    ensures forall i :: 0 <= i < |ts| ==> exists k :: 0 <= k < |entries| && entries[k].0 == DepartmentLabel(ts[i])
  {
    entries := CountKeys(DepartmentKeys(ts));
    assert forall i :: 0 <= i < |ts| ==> DepartmentKeys(ts)[i] in DepartmentKeys(ts);
  }
}
