/** The notification texts of `backend/utils/emailTemplates.js`. Each builder turns a ticket, as
    the ticket handlers pass it (a lean document whose references are populated), into a
    subject, a plain-text body and an HTML body. The JavaScript template literals are written
    out as concatenations of their fixed parts and `${...}` values. */
module EmailTemplates {
  import opened Common
  import opened Strings

  /** A reference field of a ticket as the template sees it: missing, `null`, a plain string,
      an unpopulated ObjectId, or a populated document `{ _id, name }`. */
  datatype Ref = Undefined | Null | IdText(s: string) | Oid(hex: string) | Doc(id: string, name: Option<string>)

  /** A user document, or `req.user`, read for its `name` and `email`. */
  datatype Person = Person(name: Option<string>, email: Option<string>)

  /** The ticket fields the templates read. `resolution` may be missing. */
  datatype MailTicket = MailTicket(id: string, title: string, status: string, priority: Ref,
                                   department: Ref, resolution: Option<string>)

  /** `{ subject, text, html }`. */
  datatype Email = Email(subject: string, text: string, html: string)

  /** `${v}` of a string that may be undefined. */
  function Show(v: Option<string>): (r: string)
    ensures v.Some? ==> r == v.value
    ensures v.None? ==> r == "undefined"
  {
    if v.Some? then v.value else "undefined"
  }

  /** `${r}` of a reference: a populated plain object prints as `[object Object]`. */
  function ShowRef(r: Ref): (s: string)
    ensures r.IdText? ==> s == r.s
    ensures r.Oid? ==> s == r.hex
    ensures r.Doc? ==> s == "[object Object]"
    ensures r.Undefined? ==> s == "undefined"
    ensures r.Null? ==> s == "null"
  {
    match r
    case Undefined => "undefined"
    case Null => "null"
    case IdText(s) => s
    case Oid(hex) => hex
    case Doc(_, _) => "[object Object]"
  }

  /** The readable name of a reference: a populated document's truthy name, a reference that is
      itself a string, and otherwise "Unknown". */
  function RefName(r: Ref): (s: string)
    ensures r.Doc? && Present(r.name) ==> s == r.name.value
    ensures r.IdText? ==> s == r.s
    ensures !(r.Doc? && Present(r.name)) && !r.IdText? ==> s == "Unknown"
  {
    if r.Doc? && Present(r.name) then r.name.value
    else if r.IdText? then r.s
    else "Unknown"
  }

  /** `getDeptName`: "Unknown" without a ticket, otherwise the department's name. */
  function GetDeptName(t: Option<MailTicket>): (s: string)
    ensures t.None? ==> s == "Unknown"
    ensures t.Some? ==> s == RefName(t.value.department)
  {
    if t.None? then "Unknown" else RefName(t.value.department)
  }

  /** The department name never prints a raw ObjectId or a whole document: it is a name the
      department carries, the string it is, or "Unknown". */
  lemma DeptNameIsAName(t: Option<MailTicket>)
    ensures GetDeptName(t) == "Unknown"
            || (t.Some? && t.value.department.Doc? && GetDeptName(t) == t.value.department.name.value)
            || (t.Some? && t.value.department.IdText? && GetDeptName(t) == t.value.department.s)
    ensures t.Some? && t.value.department.Doc? && Present(t.value.department.name) ==>
      GetDeptName(t) != ShowRef(t.value.department) || t.value.department.name.value == "[object Object]"
  {
  }

  /** `v || fallback` for a string that may be missing: the value when it is truthy. */
  function Fallback(v: Option<string>, fallback: string): (r: string)
    ensures Present(v) ==> r == v.value
    ensures !Present(v) ==> r == fallback
    ensures fallback != "" ==> r != ""
  {
    if Present(v) then v.value else fallback
  }

  /** `p?.name`. */
  function NameOf(p: Option<Person>): (r: Option<string>)
    ensures p.None? ==> r.None?
    ensures p.Some? ==> r == p.value.name
  {
    if p.Some? then p.value.name else None
  }

  /** `ticket.resolution?.trim() || "—"`. */
  function ResolutionNote(resolution: Option<string>): (r: string)
    ensures r != "" && Trimmed(r)
    ensures resolution.Some? && Trim(resolution.value) != "" ==> r == Trim(resolution.value)
    ensures resolution.None? || Trim(resolution.value) == "" ==> r == "—"
  {
    if resolution.Some? && Trim(resolution.value) != "" then
      TrimTrimmed(resolution.value);
      Trim(resolution.value)
    else
      "—"
  }

  /** A `Caption: value` line of the plain-text body. */
  function Line(caption: string, value: string): string
  {
    caption + value + "\n"
  }

  /** A `<p><strong>Caption:</strong> value</p>` row of the HTML body, indented as in the source. */
  function Row(caption: string, value: string): string
  {
    "    <p><strong>" + caption + ":</strong> " + value + "</p>\n"
  }

  /** The HTML body: a heading and its rows inside the template literal's blank margins. */
  function Html(heading: string, rows: seq<string>): string
  {
    Concat(["\n    <h2>" + heading + "</h2>\n"] + rows + ["  "])
  }

  /** The salutation and the opening sentence of a plain-text body. */
  function Opening(name: Option<string>, sentence: string): string
  {
    "Hi " + Show(name) + ",\n\n" + sentence + "\n\n"
  }

  const CREATED_SUBJECT := "New Ticket Created: "
  const ASSIGNED_SUBJECT := "Ticket Assigned to You: "
  const RESOLVED_SUBJECT := "Ticket Resolved: "
  const UPDATED_SUBJECT := "Ticket Updated: "

  /** The subject is the fixed prefix followed by the ticket's title. */
  predicate Titled(subject: string, prefix: string, title: string)
  {
    |subject| == |prefix| + |title| && subject[..|prefix|] == prefix && subject[|prefix|..] == title
  }

  /** `ticketCreatedTemplate` as written: the priority is interpolated directly, which for a
      populated priority prints the object rather than its name. */
  function TicketCreatedAsWritten(t: MailTicket, user: Person): (e: Email)
    ensures Titled(e.subject, CREATED_SUBJECT, t.title)
  {
    CreatedEmail(t, user, ShowRef(t.priority))
  }

  /** `ticketCreatedTemplate` with the priority shown by its name, as the department is. */
  function TicketCreated(t: MailTicket, user: Person): (e: Email)
    ensures Titled(e.subject, CREATED_SUBJECT, t.title)
  {
    CreatedEmail(t, user, RefName(t.priority))
  }

  /** The created template around a given rendering of the priority. */
  function CreatedEmail(t: MailTicket, user: Person, priority: string): Email
  {
    Email(CREATED_SUBJECT + t.title, Concat(CreatedLines(t, user, priority)), Html("New Ticket Created", CreatedRows(t, user, priority)))
  }

  function CreatedLines(t: MailTicket, user: Person, priority: string): seq<string>
  {
    [Opening(user.name, "A new ticket has been created."),
     Line("Ticket ID: ", t.id), Line("Title: ", t.title), Line("Status: ", t.status),
     Line("Priority: ", priority), Line("Department: ", GetDeptName(Some(t))),
     "\nYou can view the ticket in the dashboard.\n"]
  }

  function CreatedRows(t: MailTicket, user: Person, priority: string): seq<string>
  {
    [Row("Ticket ID", t.id), Row("Title", t.title), Row("Status", t.status),
     Row("Priority", priority), Row("Department", GetDeptName(Some(t))),
     Row("Created by", Show(user.name) + " (" + Show(user.email) + ")")]
  }

  /** `ticketAssignedTemplate`. */
  function TicketAssigned(t: MailTicket, assignee: Person, assigner: Option<Person>): (e: Email)
    ensures Titled(e.subject, ASSIGNED_SUBJECT, t.title)
  {
    var signer := Fallback(NameOf(assigner), "System");
    Email(ASSIGNED_SUBJECT + t.title, Concat(AssignedLines(t, assignee, signer)), Html("Ticket Assigned", AssignedRows(t, signer)))
  }

  function AssignedLines(t: MailTicket, assignee: Person, signer: string): seq<string>
  {
    [Opening(assignee.name, "You have been assigned a ticket."),
     Line("Ticket ID: ", t.id), Line("Title: ", t.title), Line("Department: ", GetDeptName(Some(t))),
     Line("Assigned by: ", signer)]
  }

  function AssignedRows(t: MailTicket, signer: string): seq<string>
  {
    [Row("Ticket ID", t.id), Row("Title", t.title), Row("Department", GetDeptName(Some(t))),
     Row("Assigned by", signer)]
  }

  /** `ticketResolvedTemplate`. */
  function TicketResolved(t: MailTicket, user: Person, resolver: Option<Person>): (e: Email)
    ensures Titled(e.subject, RESOLVED_SUBJECT, t.title)
  {
    var signer := Fallback(NameOf(resolver), "Staff");
    var notes := ResolutionNote(t.resolution);
    Email(RESOLVED_SUBJECT + t.title, Concat(ResolvedLines(t, user, signer, notes)), Html("Ticket Resolved", ResolvedRows(t, signer, notes)))
  }

  function ResolvedLines(t: MailTicket, user: Person, signer: string, notes: string): seq<string>
  {
    [Opening(user.name, "Your ticket \"" + t.title + "\" has been marked as Resolved."),
     Line("Ticket ID: ", t.id), Line("Department: ", GetDeptName(Some(t))),
     Line("Resolved by: ", signer), Line("Resolution notes: ", notes)]
  }

  function ResolvedRows(t: MailTicket, signer: string, notes: string): seq<string>
  {
    [Row("Ticket ID", t.id), Row("Title", t.title), Row("Department", GetDeptName(Some(t))),
     Row("Resolved by", signer), Row("Resolution notes", notes)]
  }

  /** `ticketUpdatedTemplate`; `changes` is the summary the caller passes. */
  function TicketUpdated(t: MailTicket, user: Person, changes: Option<string>): (e: Email)
    ensures Titled(e.subject, UPDATED_SUBJECT, t.title)
  {
    var summary := Fallback(changes, "Updated");
    Email(UPDATED_SUBJECT + t.title, Concat(UpdatedLines(t, user, summary)), Html("Ticket Updated", UpdatedRows(t, summary)))
  }

  function UpdatedLines(t: MailTicket, user: Person, summary: string): seq<string>
  {
    [Opening(user.name, "Your ticket \"" + t.title + "\" has been updated."),
     Line("Ticket ID: ", t.id), Line("Department: ", GetDeptName(Some(t))), Line("Changes: ", summary)]
  }

  function UpdatedRows(t: MailTicket, summary: string): seq<string>
  {
    [Row("Ticket ID", t.id), Row("Title", t.title), Row("Department", GetDeptName(Some(t))),
     Row("Changes", summary)]
  }

  /** A concatenation includes each of its parts. */
  lemma LinesContain(parts: seq<string>, k: nat)
    requires k < |parts|
    ensures Contains(Concat(parts), parts[k])
  {
    ConcatSplit(parts, k);
    ContainsInfix(Concat(parts[..k]), parts[k], Concat(parts[k + 1..]));
  }

  /** An HTML body includes each of its rows. */
  lemma RowsContain(heading: string, rows: seq<string>, k: nat)
    requires k < |rows|
    ensures Contains(Html(heading, rows), rows[k])
  {
    var parts := ["\n    <h2>" + heading + "</h2>\n"] + rows + ["  "];
    assert parts[k + 1] == rows[k];
    LinesContain(parts, k + 1);
  }

  /** The created notice states the department by name in both bodies. */
  lemma CreatedNamesDepartment(t: MailTicket, user: Person)
    ensures Contains(TicketCreated(t, user).text, Line("Department: ", RefName(t.department)))
    ensures Contains(TicketCreated(t, user).html, Row("Department", RefName(t.department)))
  {
    LinesContain(CreatedLines(t, user, RefName(t.priority)), 5);
    RowsContain("New Ticket Created", CreatedRows(t, user, RefName(t.priority)), 4);
  }

  /** As written, a populated priority reaches the reader as `[object Object]`, whatever its
      name. */
  lemma CreatedAsWrittenShowsObject(t: MailTicket, user: Person)
    requires t.priority.Doc?
    ensures Contains(TicketCreatedAsWritten(t, user).text, Line("Priority: ", "[object Object]"))
    ensures Contains(TicketCreatedAsWritten(t, user).html, Row("Priority", "[object Object]"))
  {
    LinesContain(CreatedLines(t, user, ShowRef(t.priority)), 4);
    RowsContain("New Ticket Created", CreatedRows(t, user, ShowRef(t.priority)), 3);
  }

  /** With the correction a populated priority is shown by its name in both bodies. */
  lemma CreatedNamesPriority(t: MailTicket, user: Person)
    requires t.priority.Doc? && Present(t.priority.name)
    ensures Contains(TicketCreated(t, user).text, Line("Priority: ", t.priority.name.value))
    ensures Contains(TicketCreated(t, user).html, Row("Priority", t.priority.name.value))
  {
    LinesContain(CreatedLines(t, user, RefName(t.priority)), 4);
    RowsContain("New Ticket Created", CreatedRows(t, user, RefName(t.priority)), 3);
  }

  /** The assigned notice names the assigner, or "System" when there is none or it has no name. */
  lemma AssignedNamesAssigner(t: MailTicket, assignee: Person, assigner: Option<Person>)
    ensures Contains(TicketAssigned(t, assignee, assigner).text,
                     Line("Assigned by: ", if assigner.Some? && Present(assigner.value.name) then assigner.value.name.value else "System"))
    ensures Contains(TicketAssigned(t, assignee, assigner).html,
                     Row("Assigned by", if assigner.Some? && Present(assigner.value.name) then assigner.value.name.value else "System"))
  {
    var signer := Fallback(NameOf(assigner), "System");
    LinesContain(AssignedLines(t, assignee, signer), 4);
    RowsContain("Ticket Assigned", AssignedRows(t, signer), 3);
  }

  /** The resolved notice names the resolver, or "Staff", and carries the trimmed resolution, or
      "—" when it is blank. */
  lemma ResolvedNamesResolverAndNotes(t: MailTicket, user: Person, resolver: Option<Person>)
    ensures Contains(TicketResolved(t, user, resolver).text,
                     Line("Resolved by: ", if resolver.Some? && Present(resolver.value.name) then resolver.value.name.value else "Staff"))
    ensures Contains(TicketResolved(t, user, resolver).text,
                     Line("Resolution notes: ", if t.resolution.Some? && Trim(t.resolution.value) != "" then Trim(t.resolution.value) else "—"))
    ensures Contains(TicketResolved(t, user, resolver).html,
                     Row("Resolution notes", if t.resolution.Some? && Trim(t.resolution.value) != "" then Trim(t.resolution.value) else "—"))
  {
    var signer := Fallback(NameOf(resolver), "Staff");
    var notes := ResolutionNote(t.resolution);
    LinesContain(ResolvedLines(t, user, signer, notes), 3);
    LinesContain(ResolvedLines(t, user, signer, notes), 4);
    RowsContain("Ticket Resolved", ResolvedRows(t, signer, notes), 4);
  }

  /** The updated notice shows the changes, or "Updated" when they are empty. */
  lemma UpdatedShowsChanges(t: MailTicket, user: Person, changes: Option<string>)
    ensures Contains(TicketUpdated(t, user, changes).text,
                     Line("Changes: ", if Present(changes) then changes.value else "Updated"))
    ensures Contains(TicketUpdated(t, user, changes).html,
                     Row("Changes", if Present(changes) then changes.value else "Updated"))
  {
    var summary := Fallback(changes, "Updated");
    LinesContain(UpdatedLines(t, user, summary), 3);
    RowsContain("Ticket Updated", UpdatedRows(t, summary), 3);
  }
}
