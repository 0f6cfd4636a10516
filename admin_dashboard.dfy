/** The administrator's dashboard (`frontend/src/pages/admin/AdminDashboard.jsx`): reading names and
    ids out of populated references, the filter and the paging of the ticket table, the payload of
    a status change, the chart counts, and the CSV export. */
module AdminDashboard {
  import opened Common
  import opened Strings
  import opened Tally
  import opened Csv
  import opened ClientTicket

  const PER_PAGE: nat := 8

  /** `getName`: "" for null, the string itself, or the object's name when it has a non-empty
      one. */
  function GetName(r: Ref): (n: string)
    ensures r.NoRef? ==> n == ""
    ensures r.RefText? ==> n == r.s
    ensures r.RefObj? ==> n == (if Present(r.name) then r.name.value else "")
  {
    if r.NoRef? then "" else if r.RefText? then r.s else NameOr(r, "")
  }

  /** `getId`: "" for null, the string itself, or the object's `_id`, else its `id`, else "". */
  function GetId(r: Ref): (id: string)
    ensures r.NoRef? ==> id == ""
    ensures r.RefText? ==> id == r.s
    ensures r.RefObj? && Present(r.oid) ==> id == r.oid.value
    ensures r.RefObj? && !Present(r.oid) && Present(r.altId) ==> id == r.altId.value
    ensures r.RefObj? && !Present(r.oid) && !Present(r.altId) ==> id == ""
  {
    if r.NoRef? then ""
    else if r.RefText? then r.s
    else if Present(r.oid) then r.oid.value
    else if Present(r.altId) then r.altId.value
    else ""
  }

  // ---------------------------------------------------------------------------------------
  // The ticket table

  /** The search box and the three selects; "" switches a select off. */
  datatype Filters = Filters(search: string, deptId: string, priorityId: string, status: string)

  /** The search text as the filter uses it: lower-cased, then trimmed. */
  function QueryOf(f: Filters): string
  {
    Trim(Lower(f.search))
  }

  function DescriptionText(t: Ticket): string
  {
    if t.description.Some? then t.description.value else ""
  }

  /** The text the search looks in: title, description, department, priority and creator,
      separated by spaces and lower-cased. */
  function Haystack(t: Ticket): (r: string)
    ensures Lower(r) == r
    ensures IsPrefix(Lower(t.title), r)
  {
    Lower(t.title + AfterTitle(t))
  }

  /** The description, both names and the creator's name can all be found by the search. */
  lemma {:induction false} HaystackFields(t: Ticket)
    ensures Contains(Haystack(t), Lower(DescriptionText(t)))
    ensures Contains(Haystack(t), Lower(GetName(t.department)))
    ensures Contains(Haystack(t), Lower(GetName(t.priority)))
    ensures Contains(Haystack(t), Lower(NameOr(t.createdBy, "")))
  {
    var d, dep, pr, c := DescriptionText(t), GetName(t.department), GetName(t.priority), NameOr(t.createdBy, "");
    var s1 := " " + d;
    var s2 := s1 + " ";
    var s3 := s2 + dep;
    var s4 := s3 + " ";
    var s5 := s4 + pr;
    var s6 := s5 + " ";
    var s7 := s6 + c;
    assert AfterTitle(t) == s7;
    // The description, then each later field, found in the text up to it and then in the rest.
    LowerIncludes(" ", d, Lower(d), false);
    LowerIncludes(s1, " ", Lower(d), true);
    LowerIncludes(s2, dep, Lower(d), true);
    LowerIncludes(s2, dep, Lower(dep), false);
    LowerIncludes(s3, " ", Lower(d), true);
    LowerIncludes(s3, " ", Lower(dep), true);
    LowerIncludes(s4, pr, Lower(d), true);
    LowerIncludes(s4, pr, Lower(dep), true);
    LowerIncludes(s4, pr, Lower(pr), false);
    LowerIncludes(s5, " ", Lower(d), true);
    LowerIncludes(s5, " ", Lower(dep), true);
    LowerIncludes(s5, " ", Lower(pr), true);
    LowerIncludes(s6, c, Lower(d), true);
    LowerIncludes(s6, c, Lower(dep), true);
    LowerIncludes(s6, c, Lower(pr), true);
    LowerIncludes(s6, c, Lower(c), false);
    LowerIncludes(t.title, s7, Lower(d), false);
    LowerIncludes(t.title, s7, Lower(dep), false);
    LowerIncludes(t.title, s7, Lower(pr), false);
    LowerIncludes(t.title, s7, Lower(c), false);
  }

  /** A needle found in the lower-cased left part (`inLeft`) or in the lower-cased right part
      is found in the lower-cased whole; a lower-cased string holds itself. */
  lemma LowerIncludes(a: string, b: string, needle: string, inLeft: bool)
    requires inLeft ==> Contains(Lower(a), needle)
    requires !inLeft ==> Contains(Lower(b), needle) || needle == Lower(b)
    ensures Contains(Lower(a + b), needle)
  {
    LowerAppend(a, b);
    if !inLeft && needle == Lower(b) {
      ContainsInfix([], Lower(b), []);
      assert [] + Lower(b) + [] == Lower(b);
    }
    ContainsAppend(Lower(a), Lower(b), needle);
  }

  /** The part of the haystack after the title. */
  function AfterTitle(t: Ticket): string
  {
    " " + DescriptionText(t) + " " + GetName(t.department) + " " + GetName(t.priority) + " " + NameOr(t.createdBy, "")
  }

  /** A ticket stays in the table. */
  predicate Shows(t: Ticket, f: Filters)
    ensures f.deptId != "" && GetId(t.department) != f.deptId ==> !Shows(t, f)
    ensures f.priorityId != "" && GetId(t.priority) != f.priorityId ==> !Shows(t, f)
    ensures f.status != "" && t.status != f.status ==> !Shows(t, f)
    ensures QueryOf(f) != "" && !Contains(Haystack(t), QueryOf(f)) ==> !Shows(t, f)
  {
    (f.deptId == "" || GetId(t.department) == f.deptId)
    && (f.priorityId == "" || GetId(t.priority) == f.priorityId)
    && (f.status == "" || t.status == f.status)
    && (QueryOf(f) == "" || Contains(Haystack(t), QueryOf(f)))
  }

  function Showing(f: Filters): Ticket -> bool { (t: Ticket) => Shows(t, f) }

  /** `filtered`: the tickets that pass every filter that is on, in their order, each as often
      as it occurs. */
  function Filtered(ts: seq<Ticket>, f: Filters): (r: seq<Ticket>)
    ensures forall t :: t in r <==> t in ts && Shows(t, f)
    ensures forall t :: multiset(r)[t] == if Shows(t, f) then multiset(ts)[t] else 0
    ensures |r| <= |ts|
  {
    var r := Filter(ts, Showing(f));
    assert forall t :: multiset(r)[t] == if Shows(t, f) then multiset(ts)[t] else 0 by {
      forall t
        ensures multiset(r)[t] == if Shows(t, f) then multiset(ts)[t] else 0
      {
        FilterMultiset(ts, Showing(f), t);
      }
    }
    r
  }

  /** A search the title matches always finds the ticket, whatever else the ticket holds. */
  lemma TitleMatchShows(t: Ticket, search: string)
    requires Contains(Lower(t.title), Trim(Lower(search)))
    ensures Shows(t, Filters(search, "", "", ""))
  {
    LowerAppend(t.title, AfterTitle(t));
    ContainsAppend(Lower(t.title), Lower(AfterTitle(t)), Trim(Lower(search)));
  }

  /** With the selects off, a blank search keeps every ticket. */
  lemma BlankSearchShowsAll(t: Ticket, search: string)
    requires AllWhite(search)
    ensures Shows(t, Filters(search, "", "", ""))
  {
    forall i | 0 <= i < |search|
      ensures IsWhite(Lower(search)[i])
    {
      LowerCharWhite(search[i]);
    }
    TrimEmptyIff(Lower(search));
  }

  /** `totalPages`: at least one page, and no empty page beyond the first. */
  function TotalPages(n: nat): (r: nat)
    ensures r >= 1
    ensures n <= r * PER_PAGE
    ensures r > 1 ==> (r - 1) * PER_PAGE < n
  {
    PageCount(n, PER_PAGE)
  }

  /** `paged`: the rows of the current page, at most eight, empty once the page lies past the
      end of the list. */
  function Paged(filtered: seq<Ticket>, page: nat): (r: seq<Ticket>)
    requires page >= 1
    ensures |r| <= PER_PAGE
    ensures PageStart(page, PER_PAGE) <= |filtered| ==>
      r == filtered[PageStart(page, PER_PAGE)..Min(PageStart(page, PER_PAGE) + PER_PAGE, |filtered|)]
    ensures PageStart(page, PER_PAGE) >= |filtered| ==> r == []
  {
    JsSlice(filtered, (page - 1) * PER_PAGE, page * PER_PAGE)
  }

  /** Every existing page holds at least one row. */
  lemma ExistingPageNotEmpty(filtered: seq<Ticket>, page: nat)
    requires filtered != [] && 1 <= page <= TotalPages(|filtered|)
    ensures Paged(filtered, page) != []
  {
    PageStartInside(page, |filtered|, PER_PAGE);
  }

  // ---------------------------------------------------------------------------------------
  // Status change

  /** The body of the update request. */
  datatype Payload = Payload(status: string, resolution: Option<string>)

  /** `handleStatusChange`: nothing is sent unless the change is confirmed; a resolution goes
      along only for "Resolved", and only when the notes prompt was not cancelled (`notes` is
      `None` for a cancelled prompt, and an empty answer still counts). */
  function StatusPayload(newStatus: string, confirmed: bool, notes: Option<string>): (r: Option<Payload>)
    ensures r.None? <==> !confirmed
    ensures r.Some? ==> r.value.status == newStatus
    ensures r.Some? ==> (r.value.resolution.Some? <==> newStatus == "Resolved" && notes.Some?)
    ensures r.Some? && r.value.resolution.Some? ==> r.value.resolution == notes
  {
    if !confirmed then None
    else if newStatus == "Resolved" && notes.Some? then Some(Payload(newStatus, notes))
    else Some(Payload(newStatus, None))
  }

  // ---------------------------------------------------------------------------------------
  // Chart counts

  /** The label a ticket is counted under: the reference's name, or "Unknown". */
  function ChartLabel(r: Ref): (n: string)
    ensures n != ""
    ensures n == GetName(r) || (GetName(r) == "" && n == "Unknown")
  {
    if GetName(r) != "" then GetName(r) else "Unknown"
  }

  function LabelsOf(refs: seq<Ref>): (r: seq<string>)
    ensures |r| == |refs| && forall i :: 0 <= i < |refs| ==> r[i] == ChartLabel(refs[i])
  {
    seq(|refs|, i requires 0 <= i < |refs| => ChartLabel(refs[i]))
  }

  /** The `forEach` that counts references by label, then `Object.entries`: each label once,
      with the number of references it covers; the counts add up to the number of references. */
  method CountByLabel(refs: seq<Ref>) returns (entries: seq<(string, nat)>)
    ensures |entries| == |Dedup(LabelsOf(refs))|
    ensures forall i :: 0 <= i < |entries| ==> entries[i].0 == JsKeyOrder(Dedup(LabelsOf(refs)))[i]
    ensures SumCounts(entries) == |refs|
    ensures forall i :: 0 <= i < |entries| ==> entries[i].0 != "" && entries[i].1 == multiset(LabelsOf(refs))[entries[i].0] > 0
    ensures forall i :: 0 <= i < |refs| ==> exists k :: 0 <= k < |entries| && entries[k].0 == ChartLabel(refs[i])
    ensures forall i, j :: 0 <= i < j < |entries| ==> entries[i].0 != entries[j].0
  {
    var labels := LabelsOf(refs);
    entries := CountKeys(labels);
    forall i | 0 <= i < |entries|
      ensures entries[i].0 != ""
    {
      var j :| 0 <= j < |labels| && labels[j] == entries[i].0;
    }
    forall i | 0 <= i < |refs|
      ensures exists k :: 0 <= k < |entries| && entries[k].0 == ChartLabel(refs[i])
    {
      assert labels[i] in labels;
    }
  }

  function Departments(ts: seq<Ticket>): (r: seq<Ref>)
    ensures |r| == |ts| && forall i :: 0 <= i < |ts| ==> r[i] == ts[i].department
  {
    seq(|ts|, i requires 0 <= i < |ts| => ts[i].department)
  }

  function Priorities(ts: seq<Ticket>): (r: seq<Ref>)
    ensures |r| == |ts| && forall i :: 0 <= i < |ts| ==> r[i] == ts[i].priority
  {
    seq(|ts|, i requires 0 <= i < |ts| => ts[i].priority)
  }

  /** `ticketsByDept`: every ticket counted once, under its department's name or "Unknown". */
  method TicketsByDept(ts: seq<Ticket>) returns (entries: seq<(string, nat)>)
    ensures |entries| == |Dedup(LabelsOf(Departments(ts)))|
    ensures forall i :: 0 <= i < |entries| ==> entries[i].0 == JsKeyOrder(Dedup(LabelsOf(Departments(ts))))[i]
    ensures SumCounts(entries) == |ts|
    ensures forall i :: 0 <= i < |entries| ==> entries[i].0 != "" && entries[i].1 == multiset(LabelsOf(Departments(ts)))[entries[i].0] > 0
    ensures forall i :: 0 <= i < |ts| ==> exists k :: 0 <= k < |entries| && entries[k].0 == ChartLabel(ts[i].department)
  {
    entries := CountByLabel(Departments(ts));
  }

  /** `ticketsByPriority`: every ticket counted once, under its priority's name or "Unknown". */
  method TicketsByPriority(ts: seq<Ticket>) returns (entries: seq<(string, nat)>)
    ensures |entries| == |Dedup(LabelsOf(Priorities(ts)))|
    ensures forall i :: 0 <= i < |entries| ==> entries[i].0 == JsKeyOrder(Dedup(LabelsOf(Priorities(ts))))[i]
    ensures SumCounts(entries) == |ts|
    ensures forall i :: 0 <= i < |entries| ==> entries[i].0 != "" && entries[i].1 == multiset(LabelsOf(Priorities(ts)))[entries[i].0] > 0
    ensures forall i :: 0 <= i < |ts| ==> exists k :: 0 <= k < |entries| && entries[k].0 == ChartLabel(ts[i].priority)
  {
    entries := CountByLabel(Priorities(ts));
  }

  // ---------------------------------------------------------------------------------------
  // CSV export

  const HEADER: seq<string> := ["TicketId", "Title", "Status", "PriorityId", "PriorityName", "DepartmentId",
    "DepartmentName", "CreatedById", "CreatedByName", "AssignedToId", "AssignedToName", "CreatedAt"]

  /** `r?._id || ""`. */
  function OidOr(r: Ref): string
  {
    if r.RefObj? && Present(r.oid) then r.oid.value else ""
  }

  /** The values a row holds, column by column, before any quoting; `iso` is what
      `new Date(createdAt).toISOString()` gives. */
  function RowValues(t: Ticket, iso: string -> string): (r: seq<string>)
    ensures |r| == |HEADER|
    ensures r[0] == t.id && r[1] == t.title && r[2] == t.status && r[11] == iso(t.createdAt)
    ensures r[3] == GetId(t.priority) && r[4] == GetName(t.priority)
    ensures r[5] == GetId(t.department) && r[6] == GetName(t.department)
    ensures r[7] == OidOr(t.createdBy) && r[8] == NameOr(t.createdBy, "")
    ensures r[9] == OidOr(t.assignedTo) && r[10] == NameOr(t.assignedTo, "")
  {
    [t.id, t.title, t.status, GetId(t.priority), GetName(t.priority), GetId(t.department),
     GetName(t.department), OidOr(t.createdBy), NameOr(t.createdBy, ""), OidOr(t.assignedTo),
     NameOr(t.assignedTo, ""), iso(t.createdAt)]
  }

  /** The columns written between quotes. */
  predicate QuotedColumn(k: int) {
    k == 1 || k == 4 || k == 6 || k == 8 || k == 10
  }

  /** A row as the page writes it: title and the priority and department names escaped, the
      creator's and assignee's names put between quotes without doubling the quotes inside. */
  function RowAsWritten(t: Ticket, iso: string -> string): (r: seq<string>)
    ensures |r| == |HEADER|
  {
    var v := RowValues(t, iso);
    [v[0], EscapeCell(v[1]), v[2], v[3], EscapeCell(v[4]), v[5], EscapeCell(v[6]),
     v[7], "\"" + v[8] + "\"", v[9], "\"" + v[10] + "\"", v[11]]
  }

  /** A row with every quoted column escaped the same way. */
  function Row(t: Ticket, iso: string -> string): (r: seq<string>)
    ensures |r| == |HEADER|
  {
    var v := RowValues(t, iso);
    seq(|v|, k requires 0 <= k < |v| => if QuotedColumn(k) then EscapeCell(v[k]) else v[k])
  }

  /** In the corrected row every quoted column is one well quoted field that reads back as the
      value, and the other columns are the values themselves. */
  lemma RowRoundTrip(t: Ticket, iso: string -> string)
    ensures forall k :: 0 <= k < |HEADER| && QuotedColumn(k) ==>
      WellQuoted(Row(t, iso)[k]) && Unquote(Row(t, iso)[k]) == RowValues(t, iso)[k]
    ensures forall k :: 0 <= k < |HEADER| && !QuotedColumn(k) ==> Row(t, iso)[k] == RowValues(t, iso)[k]
  {
    forall k | 0 <= k < |HEADER| && QuotedColumn(k)
      ensures WellQuoted(Row(t, iso)[k]) && Unquote(Row(t, iso)[k]) == RowValues(t, iso)[k]
    {
      EscapeRoundTrip(RowValues(t, iso)[k]);
    }
  }

  /** While no name holds a quote, the row as written is the corrected row. */
  lemma AsWrittenAgrees(t: Ticket, iso: string -> string)
    requires forall i :: 0 <= i < |NameOr(t.createdBy, "")| ==> NameOr(t.createdBy, "")[i] != '"'
    requires forall i :: 0 <= i < |NameOr(t.assignedTo, "")| ==> NameOr(t.assignedTo, "")[i] != '"'
    ensures RowAsWritten(t, iso) == Row(t, iso)
  {
    var v := RowValues(t, iso);
    NoQuotesUnchanged(v[8]);
    NoQuotesUnchanged(v[10]);
    var a, b := RowAsWritten(t, iso), Row(t, iso);
    forall k | 0 <= k < |HEADER|
      ensures a[k] == b[k]
    {
      if k == 8 || k == 10 {
        assert a[k] == "\"" + v[k] + "\"" == EscapeCell(v[k]);
      }
    }
  }

  /** Any name holding a quote is lost in the row as written: its column is not a well quoted
      field, or it reads back as something else. */
  lemma AsWrittenLosesQuotedNames(t: Ticket, iso: string -> string)
    ensures '"' in NameOr(t.createdBy, "") ==>
      var c := RowAsWritten(t, iso)[8]; !WellQuoted(c) || Unquote(c) != RowValues(t, iso)[8]
    ensures '"' in NameOr(t.assignedTo, "") ==>
      var c := RowAsWritten(t, iso)[10]; !WellQuoted(c) || Unquote(c) != RowValues(t, iso)[10]
  {
    if '"' in NameOr(t.createdBy, "") {
      BareWrapLoses(NameOr(t.createdBy, ""));
    }
    if '"' in NameOr(t.assignedTo, "") {
      BareWrapLoses(NameOr(t.assignedTo, ""));
    }
  }

  /** A creator named `O"Brien` breaks the row as written: its CreatedByName column is not a
      well quoted field. */
  lemma AsWrittenBreaksOnQuote(iso: string -> string)
    ensures var t := Ticket("t1", "Printer", None, "Open", NoRef, NoRef,
                            RefObj(Some("u1"), None, Some("O\"Brien")), NoRef, "2024-01-01T00:00:00.000Z");
      !WellQuoted(RowAsWritten(t, iso)[8]) && WellQuoted(Row(t, iso)[8])
  {
    var t := Ticket("t1", "Printer", None, "Open", NoRef, NoRef,
                    RefObj(Some("u1"), None, Some("O\"Brien")), NoRef, "2024-01-01T00:00:00.000Z");
    assert NameOr(t.createdBy, "") == "O\"Brien";
    assert RowAsWritten(t, iso)[8] == "\"" + "O\"Brien" + "\"";
    BareQuoteBreaks();
    RowRoundTrip(t, iso);
  }

  /** The lines of an export after the header, one per ticket, from a row builder. */
  function Lines(ts: seq<Ticket>, row: Ticket -> seq<string>): (r: seq<string>)
    ensures |r| == |ts| && forall i :: 0 <= i < |ts| ==> r[i] == Join(row(ts[i]), ",")
  {
    seq(|ts|, i requires 0 <= i < |ts| => Join(row(ts[i]), ","))
  }

  /** `exportCSV`: the header line, then one line per ticket built by the row as written. */
  function ExportCsv(ts: seq<Ticket>, iso: string -> string): (r: string)
    ensures r == Join(HEADER, ",") + Concat(EachAfter("\n", Lines(ts, t => RowAsWritten(t, iso))))
    ensures |r| >= |Join(HEADER, ",")| && r[..|Join(HEADER, ",")|] == Join(HEADER, ",")
  {
    var lines := [Join(HEADER, ",")] + Lines(ts, t => RowAsWritten(t, iso));
    JoinAsLines(Join(HEADER, ","), Lines(ts, t => RowAsWritten(t, iso)), "\n");
    Join(lines, "\n")
  }

  /** The export with every quoted column escaped: the header line, then one corrected row
      per ticket. */
  function ExportCsvCorrected(ts: seq<Ticket>, iso: string -> string): (r: string)
    ensures r == Join(HEADER, ",") + Concat(EachAfter("\n", Lines(ts, t => Row(t, iso))))
  {
    var lines := [Join(HEADER, ",")] + Lines(ts, t => Row(t, iso));
    JoinAsLines(Join(HEADER, ","), Lines(ts, t => Row(t, iso)), "\n");
    Join(lines, "\n")
  }

  /** A name with no double quote in it. */
  predicate QuoteFree(s: string) {
    forall i :: 0 <= i < |s| ==> s[i] != '"'
  }

  /** While no creator's or assignee's name holds a quote, the file as written is the corrected
      file; the `O"Brien` ticket of `AsWrittenBreaksOnQuote` is where they part. */
  lemma ExportAgrees(ts: seq<Ticket>, iso: string -> string)
    requires forall i :: 0 <= i < |ts| ==> QuoteFree(NameOr(ts[i].createdBy, "")) && QuoteFree(NameOr(ts[i].assignedTo, ""))
    ensures ExportCsv(ts, iso) == ExportCsvCorrected(ts, iso)
  {
    forall i | 0 <= i < |ts|
      ensures RowAsWritten(ts[i], iso) == Row(ts[i], iso)
    {
      AsWrittenAgrees(ts[i], iso);
    }
    assert Lines(ts, t => RowAsWritten(t, iso)) == Lines(ts, t => Row(t, iso));
  }
}
