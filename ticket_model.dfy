/** The ticket document of `backend/models/ticket.model.js`: the status enum, the stored fields,
    the schema defaults, the `trim` setters and what `save` validates. */
module TicketModel {
  import opened Common
  import opened Strings

  /** The six workflow states of a ticket. */
  datatype Status = Open | InProgress | PendingReview | Escalated | Resolved | Closed

  /** The string stored in the `status` field for each state. */
  function StatusName(s: Status): string
  {
    match s
    case Open => "Open"
    case InProgress => "In Progress"
    case PendingReview => "Pending Review"
    case Escalated => "Escalated"
    case Resolved => "Resolved"
    case Closed => "Closed"
  }

  /** `TICKET_STATUSES`, in the order the model file lists them. */
  const TICKET_STATUSES: seq<string> := ["Open", "In Progress", "Pending Review", "Escalated", "Resolved", "Closed"]

  /** The states in the same order. */
  const AllStatuses: seq<Status> := [Open, InProgress, PendingReview, Escalated, Resolved, Closed]

  /** `TICKET_STATUSES` lists the six state names in workflow order, no name twice. */
  lemma StatusDomain()
    ensures |TICKET_STATUSES| == |AllStatuses| == 6
    ensures forall i :: 0 <= i < 6 ==> TICKET_STATUSES[i] == StatusName(AllStatuses[i])
    ensures Distinct(TICKET_STATUSES)
  {
  }

  /** Every state is listed, and distinct states have distinct names. */
  lemma StatusesCovered()
    ensures forall s: Status :: s in AllStatuses
    ensures forall a: Status, b: Status :: StatusName(a) == StatusName(b) ==> a == b
  {
    forall s: Status
      ensures s in AllStatuses
    {
      var i := match s
        case Open => 0 case InProgress => 1 case PendingReview => 2
        case Escalated => 3 case Resolved => 4 case Closed => 5;
      assert AllStatuses[i] == s;
    }
  }

  /** The enum check of the schema and of `TICKET_STATUSES.includes`: a string names a state
      exactly when it is one of the six names. */
  function ParseStatus(name: string): (r: Option<Status>)
    ensures r.Some? <==> name in TICKET_STATUSES
    ensures r.Some? ==> StatusName(r.value) == name
  {
    if name == "Open" then Some(Open)
    else if name == "In Progress" then Some(InProgress)
    else if name == "Pending Review" then Some(PendingReview)
    else if name == "Escalated" then Some(Escalated)
    else if name == "Resolved" then Some(Resolved)
    else if name == "Closed" then Some(Closed)
    else None
  }

  /** Storing a state and reading it back gives the same state. */
  lemma ParseStatusName(s: Status)
    ensures ParseStatus(StatusName(s)) == Some(s)
  {
  }

  /** A stored ticket. Reference fields hold the referenced document's id; "" stands for a
      reference that cannot be cast to an ObjectId (an empty string or null). `assignedTo` is a
      `Mixed` path, so it holds any value the request gave: `None` is null. Dates are
      milliseconds since the epoch, `None` when the path is unset; `createdAt` comes from the
      schema's `timestamps`. */
  datatype Ticket = Ticket(
    title: string,
    description: string,
    status: Status,
    priority: string,
    department: string,
    createdBy: string,
    assignedTo: Option<string>,
    resolution: string,
    resolvedAt: Option<int>,
    reviewNotes: string,
    reviewCompletedAt: Option<int>,
    escalatedReason: string,
    escalatedAt: Option<int>,
    closedAt: Option<int>,
    createdAt: int)

  /** An ObjectId reference that can be cast: non-empty and accepted by `ObjectId.isValid`. */
  predicate ValidId(svc: Services, id: string)
  {
    id != "" && svc.isObjectId(id)
  }

  /** What `save` checks: the required title is non-empty (after the `trim` setter ran on
      assignment) and the required references cast to ObjectIds. */
  predicate SaveOk(svc: Services, t: Ticket)
  {
    t.title != "" && ValidId(svc, t.priority) && ValidId(svc, t.department) && ValidId(svc, t.createdBy)
  }

  /** Every ticket in the collection: it passed `save`, and every string path with a `trim`
      setter holds a trimmed value. */
  predicate TicketValid(svc: Services, t: Ticket)
  {
    SaveOk(svc, t)
    && Trimmed(t.title) && Trimmed(t.description) && Trimmed(t.resolution)
    && Trimmed(t.reviewNotes) && Trimmed(t.escalatedReason)
  }

  /** `Ticket.create({...})`: the given paths through their setters, every other path at its
      schema default. */
  function NewTicket(title: string, description: string, priority: string, department: string,
                     createdBy: string, assignedTo: Option<string>, now: int): Ticket
  {
    Ticket(Trim(title), Trim(description), Open, priority, department, createdBy, assignedTo,
           "", None, "", None, "", None, None, now)
  }

  /** A freshly created ticket is open, its workflow paths are at their defaults, and `save`
      accepts it exactly when the trimmed title is non-empty and the references cast. */
  lemma NewTicketDefaults(svc: Services, title: string, description: string, priority: string,
                          department: string, createdBy: string, assignedTo: Option<string>, now: int)
    ensures var t := NewTicket(title, description, priority, department, createdBy, assignedTo, now);
      t.status == Open && t.resolution == "" && t.reviewNotes == "" && t.escalatedReason == ""
      && t.resolvedAt.None? && t.reviewCompletedAt.None? && t.escalatedAt.None? && t.closedAt.None?
      && t.createdAt == now && t.createdBy == createdBy && t.assignedTo == assignedTo
      && (SaveOk(svc, t) <==> Trim(title) != "" && ValidId(svc, priority) && ValidId(svc, department) && ValidId(svc, createdBy))
  {
  }

  /** A created ticket that `save` accepts keeps the collection invariant. */
  lemma NewTicketValid(svc: Services, title: string, description: string, priority: string,
                       department: string, createdBy: string, assignedTo: Option<string>, now: int)
    requires SaveOk(svc, NewTicket(title, description, priority, department, createdBy, assignedTo, now))
    ensures TicketValid(svc, NewTicket(title, description, priority, department, createdBy, assignedTo, now))
  {
    TrimTrimmed(title);
    TrimTrimmed(description);
  }
}
