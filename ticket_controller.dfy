/** The ticket handlers of `backend/controllers/ticketController.js`, over an in-memory ticket
    collection. Each handler runs after the route guards; e-mail notifications are not modelled. */
module TicketController {
  import opened Common
  import opened Strings
  import opened Sorting
  import opened TicketModel

  /** `isValidObjectId`: the value is truthy and `ObjectId.isValid` accepts it. */
  function IsValidObjectId(svc: Services, v: JsVal): (r: bool)
    ensures r <==> v.Str? && ValidId(svc, v.s)
    ensures r ==> Truthy(v)
  {
    Truthy(v) && svc.isObjectId(v.s)
  }

  /** `!title?.trim()` fails: the title is a string with something besides white space. */
  predicate TitleGiven(v: JsVal)
  {
    v.Str? && Trim(v.s) != ""
  }

  /** The body of `POST /tickets`. */
  datatype CreateBody = CreateBody(title: JsVal, description: JsVal, priority: JsVal,
                                   department: JsVal, assignedTo: JsVal)

  /** The body of `PATCH /tickets/:id`. Text paths are absent or a string; reference paths may
      also be null. */
  datatype TicketUpdate = TicketUpdate(
    title: Option<string>,
    description: Option<string>,
    status: Option<string>,
    priority: JsVal,
    department: JsVal,
    assignedTo: JsVal,
    resolution: Option<string>)

  /** The paths `updateTicket` copies from the body when they are not `undefined`. */
  datatype Field = Title | Description | Priority | Department | AssignedTo | Resolution

  const WHITELIST: seq<Field> := [Title, Description, Priority, Department, AssignedTo, Resolution]

  /** A reference path assigned from a request value; null, like "", is a value that cannot be
      cast to an ObjectId. */
  function RefValue(v: JsVal): string
  {
    if v.Str? then v.s else ""
  }

  /** One step of the `forEach`: `if (updates[field] !== undefined) ticket[field] = updates[field]`
      with the path's `trim` setter. */
  function SetField(t: Ticket, f: Field, u: TicketUpdate): Ticket
  {
    match f
    case Title => if u.title.Some? then t.(title := Trim(u.title.value)) else t
    case Description => if u.description.Some? then t.(description := Trim(u.description.value)) else t
    case Priority => if u.priority.Undefined? then t else t.(priority := RefValue(u.priority))
    case Department => if u.department.Undefined? then t else t.(department := RefValue(u.department))
    case AssignedTo =>
      if u.assignedTo.Undefined? then t
      else t.(assignedTo := if u.assignedTo.Str? then Some(u.assignedTo.s) else None)
    case Resolution => if u.resolution.Some? then t.(resolution := Trim(u.resolution.value)) else t
  }

  /** The `forEach` over the first `|fs|` whitelisted paths. */
  function ApplyFields(t: Ticket, u: TicketUpdate, fs: seq<Field>): Ticket
  {
    if fs == [] then t else SetField(ApplyFields(t, u, fs[..|fs| - 1]), fs[|fs| - 1], u)
  }

  /** The `forEach` over the whitelisted paths, one `SetField` step per path. */
  method CopyWhitelisted(t: Ticket, u: TicketUpdate) returns (r: Ticket)
    ensures r == ApplyFields(t, u, WHITELIST)
  {
    r := t;
    var i := 0;
    while i < |WHITELIST|
      invariant 0 <= i <= |WHITELIST|
      invariant r == ApplyFields(t, u, WHITELIST[..i])
    {
      assert WHITELIST[..i + 1][..i] == WHITELIST[..i];
      r := SetField(r, WHITELIST[i], u);
      i := i + 1;
    }
    assert WHITELIST[..i] == WHITELIST;
  }

  /** The status block: a valid truthy status is stored, and "Resolved" also stamps `resolvedAt`
      and sets `resolution = updates.resolution || ticket.resolution`. */
  function StatusStep(t: Ticket, u: TicketUpdate, now: int): Ticket
  {
    if Present(u.status) && ParseStatus(u.status.value).Some? then
      var s := ParseStatus(u.status.value).value;
      var t1 := if s == Resolved then
          t.(resolvedAt := Some(now),
             resolution := Trim(if Present(u.resolution) then u.resolution.value else t.resolution))
        else t;
      t1.(status := s)
    else t
  }

  /** The document `updateTicket` hands to `save`. */
  function Merged(t: Ticket, u: TicketUpdate, now: int): Ticket
  {
    ApplyFields(StatusStep(t, u, now), u, WHITELIST)
  }

  /** The 400 replies `updateTicket` gives after finding the ticket, in the order it checks. */
  function UpdateRejection(svc: Services, u: TicketUpdate): (r: Option<Reply>)
    ensures r.None? <==>
      (Truthy(u.priority) ==> IsValidObjectId(svc, u.priority))
      && (Truthy(u.department) ==> IsValidObjectId(svc, u.department))
      && (Truthy(u.assignedTo) ==> IsValidObjectId(svc, u.assignedTo))
      && (Present(u.status) ==> u.status.value in TICKET_STATUSES)
    ensures r.Some? ==> r.value.code == 400
  {
    if Truthy(u.priority) && !IsValidObjectId(svc, u.priority) then Some(Reply(400, "Invalid priority ID"))
    else if Truthy(u.department) && !IsValidObjectId(svc, u.department) then Some(Reply(400, "Invalid department ID"))
    else if Truthy(u.assignedTo) && !IsValidObjectId(svc, u.assignedTo) then Some(Reply(400, "Invalid assigned user ID"))
    else if Present(u.status) && ParseStatus(u.status.value).None? then Some(Reply(400, "Invalid status"))
    else None
  }

  /** The status a merge ends with: the requested one when it is a valid truthy name, else the
      previous one. */
  function NewStatus(t: Ticket, u: TicketUpdate): Status
  {
    if Present(u.status) && ParseStatus(u.status.value).Some? then ParseStatus(u.status.value).value
    else t.status
  }

  /** The `forEach` over the whole whitelist, path by path: each whitelisted path takes the
      request's value through its setter when the request defines it, and nothing else moves. */
  lemma WhitelistFields(t: Ticket, u: TicketUpdate)
    ensures var m := ApplyFields(t, u, WHITELIST);
      m == t.(title := if u.title.Some? then Trim(u.title.value) else t.title,
              description := if u.description.Some? then Trim(u.description.value) else t.description,
              priority := if u.priority.Undefined? then t.priority else RefValue(u.priority),
              department := if u.department.Undefined? then t.department else RefValue(u.department),
              assignedTo := if u.assignedTo.Undefined? then t.assignedTo
                            else if u.assignedTo.Str? then Some(u.assignedTo.s) else None,
              resolution := if u.resolution.Some? then Trim(u.resolution.value) else t.resolution)
  {
    assert WHITELIST[..6][..5] == WHITELIST[..5];
    assert WHITELIST[..5][..4] == WHITELIST[..4];
    assert WHITELIST[..4][..3] == WHITELIST[..3];
    assert WHITELIST[..3][..2] == WHITELIST[..2];
    assert WHITELIST[..2][..1] == WHITELIST[..1];
    assert WHITELIST[..1][..0] == [];
    assert WHITELIST[..6] == WHITELIST;
    var a1 := SetField(t, Title, u);
    assert ApplyFields(t, u, WHITELIST[..1]) == a1;
    var a2 := SetField(a1, Description, u);
    assert ApplyFields(t, u, WHITELIST[..2]) == a2;
    var a3 := SetField(a2, Priority, u);
    assert ApplyFields(t, u, WHITELIST[..3]) == a3;
    var a4 := SetField(a3, Department, u);
    assert ApplyFields(t, u, WHITELIST[..4]) == a4;
    var a5 := SetField(a4, AssignedTo, u);
    assert ApplyFields(t, u, WHITELIST[..5]) == a5;
  }

  /** The status block changes a valid status only under a truthy valid request status, and
      stamps the resolution data only for "Resolved". */
  predicate Resolving(u: TicketUpdate)
  {
    Present(u.status) && u.status.value == "Resolved"
  }

  lemma StatusStepFields(t: Ticket, u: TicketUpdate, now: int)
    ensures var s := StatusStep(t, u, now);
      s == t.(status := NewStatus(t, u),
              resolvedAt := if Resolving(u) then Some(now) else t.resolvedAt,
              resolution := if Resolving(u)
                            then Trim(if Present(u.resolution) then u.resolution.value else t.resolution)
                            else t.resolution)
  {
    if Present(u.status) && ParseStatus(u.status.value) == Some(Resolved) {
      assert StatusName(Resolved) == u.status.value;
    }
  }

  /** The update, path by path: the whitelisted paths as the `forEach` leaves them, status,
      resolvedAt and resolution as the status block and the `forEach` leave them, and every
      other path as it was. */
  lemma MergedFields(t: Ticket, u: TicketUpdate, now: int)
    ensures var m := Merged(t, u, now);
      m == t.(title := if u.title.Some? then Trim(u.title.value) else t.title,
              description := if u.description.Some? then Trim(u.description.value) else t.description,
              priority := if u.priority.Undefined? then t.priority else RefValue(u.priority),
              department := if u.department.Undefined? then t.department else RefValue(u.department),
              assignedTo := if u.assignedTo.Undefined? then t.assignedTo
                            else if u.assignedTo.Str? then Some(u.assignedTo.s) else None,
              resolution := if u.resolution.Some? then Trim(u.resolution.value)
                            else if Resolving(u) then Trim(t.resolution) else t.resolution,
              status := NewStatus(t, u),
              resolvedAt := if Resolving(u) then Some(now) else t.resolvedAt)
  {
    StatusStepFields(t, u, now);
    WhitelistFields(StatusStep(t, u, now), u);
  }

  /** Only the whitelisted paths, status and resolvedAt can change: the author, the creation
      time and the review and escalation paths are never touched by an update. */
  lemma MergedKeepsOthers(t: Ticket, u: TicketUpdate, now: int)
    ensures var m := Merged(t, u, now);
      m.createdBy == t.createdBy && m.createdAt == t.createdAt
      && m.reviewNotes == t.reviewNotes && m.reviewCompletedAt == t.reviewCompletedAt
      && m.escalatedReason == t.escalatedReason && m.escalatedAt == t.escalatedAt
      && m.closedAt == t.closedAt
  {
    MergedFields(t, u, now);
  }

  /** Setting status "Resolved" stamps resolvedAt with the current time; any other update leaves
      resolvedAt alone. The final resolution is the request's resolution when it is defined
      (even ""), otherwise the previous one. */
  lemma MergedResolution(t: Ticket, u: TicketUpdate, now: int)
    requires Trimmed(t.resolution)
    ensures var m := Merged(t, u, now);
      (Resolving(u) ==> m.status == Resolved && m.resolvedAt == Some(now))
      && (!Resolving(u) ==> m.resolvedAt == t.resolvedAt)
      && m.resolution == (if u.resolution.Some? then Trim(u.resolution.value) else t.resolution)
  {
    var m := Merged(t, u, now);
    MergedFields(t, u, now);
    assert m.resolvedAt == (if Resolving(u) then Some(now) else t.resolvedAt);
    if Resolving(u) {
      ParseStatusName(Resolved);
      assert m.status == Resolved;
    }
    if u.resolution.None? && Resolving(u) {
      TrimmedIff(t.resolution);
      assert m.resolution == Trim(t.resolution) == t.resolution;
    }
  }

  /** Applying the same update twice is applying it once at the later time: only resolvedAt
      can differ, so with the same clock the second application changes nothing. */
  lemma MergeTwice(t: Ticket, u: TicketUpdate, now1: int, now2: int)
    ensures Merged(Merged(t, u, now1), u, now2) == Merged(t, u, now2)
  {
    var m1 := Merged(t, u, now1);
    MergedFields(t, u, now1);
    MergedFields(m1, u, now2);
    MergedFields(t, u, now2);
    if u.title.Some? { TrimIdempotent(u.title.value); }
    if u.description.Some? { TrimIdempotent(u.description.value); }
    if u.resolution.Some? { TrimIdempotent(u.resolution.value); } else { TrimIdempotent(t.resolution); }
  }

  /** A merged document that `save` accepts keeps every stored path trimmed. */
  lemma MergedValid(svc: Services, t: Ticket, u: TicketUpdate, now: int)
    requires TicketValid(svc, t)
    requires SaveOk(svc, Merged(t, u, now))
    ensures TicketValid(svc, Merged(t, u, now))
  {
    MergedFields(t, u, now);
    if u.title.Some? { TrimTrimmed(u.title.value); }
    if u.description.Some? { TrimTrimmed(u.description.value); }
    if u.resolution.Some? { TrimTrimmed(u.resolution.value); }
    else if Resolving(u) { TrimTrimmed(t.resolution); }
  }

  /** The number of tickets in a state: `Ticket.countDocuments({ status })`. */
  function CountStatus(m: map<string, Ticket>, s: Status): nat
  {
    |WithStatus(m, s)|
  }

  /** The ids of the tickets in a state. */
  function WithStatus(m: map<string, Ticket>, s: Status): set<string>
  {
    set id | id in m && m[id].status == s
  }

  /** The counts of the given states added up. */
  function SumCounts(m: map<string, Ticket>, ss: seq<Status>): nat
  {
    if ss == [] then 0 else CountStatus(m, ss[0]) + SumCounts(m, ss[1..])
  }

  lemma CountStatusBound(m: map<string, Ticket>, s: Status)
    ensures CountStatus(m, s) <= |m|
  {
    SubsetCard(WithStatus(m, s), m.Keys);
  }

  lemma CountStatusRemove(m: map<string, Ticket>, k: string, s: Status)
    requires k in m
    ensures CountStatus(m, s) == CountStatus(m - {k}, s) + (if m[k].status == s then 1 else 0)
  {
    WithStatusRemove(m, k, s);
    if m[k].status == s {
      RemoveOneCard(WithStatus(m, s), k);
    }
  }

  lemma WithStatusRemove(m: map<string, Ticket>, k: string, s: Status)
    requires k in m
    ensures WithStatus(m - {k}, s) == WithStatus(m, s) - {k}
    ensures m[k].status != s ==> WithStatus(m - {k}, s) == WithStatus(m, s)
  {
  }

  lemma {:induction false} SumCountsRemove(m: map<string, Ticket>, k: string, ss: seq<Status>)
    requires k in m && Distinct(ss)
    ensures SumCounts(m, ss) == SumCounts(m - {k}, ss) + (if m[k].status in ss then 1 else 0)
  {
    if ss != [] {
      CountStatusRemove(m, k, ss[0]);
      SumCountsRemove(m, k, ss[1..]);
      assert m[k].status in ss <==> m[k].status == ss[0] || m[k].status in ss[1..];
    }
  }

  /** Every ticket is in exactly one of the six states, so the per-status counts add up to the
      total that `getTicketStats` reports. */
  lemma {:induction false} StatusCountsPartition(m: map<string, Ticket>)
    ensures SumCounts(m, AllStatuses) == |m|
    decreases |m|
  {
    if m != map[] {
      var k :| k in m;
      var rest := m - {k};
      assert rest.Keys == m.Keys - {k};
      assert |rest| == |m| - 1;
      StatusCountsPartition(rest);
      StatusesCovered();
      StatusDomain();
      SumCountsRemove(m, k, AllStatuses);
    } else {
      SumCountsEmpty(m, AllStatuses);
    }
  }

  lemma {:induction false} SumCountsEmpty(m: map<string, Ticket>, ss: seq<Status>)
    requires |m| == 0
    ensures SumCounts(m, ss) == 0
  {
    if ss != [] {
      CountStatusBound(m, ss[0]);
      SumCountsEmpty(m, ss[1..]);
    }
  }

  /** The collection invariant: every key is a valid ObjectId and every document passed `save`. */
  ghost predicate StoreValid(svc: Services, m: map<string, Ticket>)
  {
    forall id :: id in m ==> ValidId(svc, id) && TicketValid(svc, m[id])
  }

  lemma StoreValidPut(svc: Services, m: map<string, Ticket>, id: string, t: Ticket)
    requires StoreValid(svc, m) && ValidId(svc, id) && TicketValid(svc, t)
    ensures StoreValid(svc, m[id := t])
  {
  }

  lemma StoreValidRemove(svc: Services, m: map<string, Ticket>, id: string)
    requires StoreValid(svc, m)
    ensures StoreValid(svc, m - {id})
  {
  }

  /** The `find({ createdBy })` scan over the ids `all`, which list every ticket once: each
      ticket of the user is kept once, and nothing else. */
  method CreatedBy(m: map<string, Ticket>, all: seq<string>, uid: string) returns (mine: seq<string>)
    requires Distinct(all) && forall id :: id in all <==> id in m
    ensures forall id :: multiset(mine)[id] == (if id in m && m[id].createdBy == uid then 1 else 0)
  {
    mine := [];
    var i := 0;
    while i < |all|
      invariant 0 <= i <= |all|
      invariant forall id :: multiset(mine)[id] == (if id in all[..i] && m[id].createdBy == uid then 1 else 0)
    {
      assert all[..i + 1] == all[..i] + [all[i]];
      assert all[i] !in all[..i];
      if m[all[i]].createdBy == uid {
        mine := mine + [all[i]];
      }
      i := i + 1;
    }
    assert all[..i] == all;
  }

  function CreatedAtOf(m: map<string, Ticket>, id: string): int
  {
    if id in m then m[id].createdAt else 0
  }

  /** The ticket collection. `Valid` is what every stored document satisfies: its id is a valid
      ObjectId and it passed `save`. */
  class TicketStore {
    const svc: Services
    var tickets: map<string, Ticket>

    ghost predicate Valid()
      reads this
    {
      StoreValid(svc, tickets)
    }

    constructor (svc: Services)
      ensures this.svc == svc && tickets == map[] && Valid()
    {
      this.svc := svc;
      tickets := map[];
    }

    /** `createTicket`. `userId` is `req.user?.id`; `departments` and `priorities` are the ids
        present in those collections; `newId` is the ObjectId the database assigns and `now` the
        clock. */
    method CreateTicket(userId: Option<string>, body: CreateBody, departments: set<string>,
                        priorities: set<string>, newId: string, now: int)
      returns (reply: Reply, created: Option<Ticket>)
      requires Valid()
      requires ValidId(svc, newId) && newId !in tickets
      modifies this
      ensures Valid()
      ensures !Present(userId) ==> reply == Reply(401, "Unauthorized")
      ensures Present(userId) && !TitleGiven(body.title) ==>
        reply == Reply(400, "Title is required")
      ensures (Present(userId) && TitleGiven(body.title)
               && !(IsValidObjectId(svc, body.priority) && IsValidObjectId(svc, body.department))) ==>
        reply == Reply(400, "Invalid reference ID")
      ensures (Present(userId) && TitleGiven(body.title)
               && IsValidObjectId(svc, body.priority) && IsValidObjectId(svc, body.department)
               && !(body.department.s in departments && body.priority.s in priorities)) ==>
        reply == Reply(400, "Invalid department or priority")
      ensures reply.code == 201 <==>
        Present(userId) && ValidId(svc, userId.value) && TitleGiven(body.title)
        && IsValidObjectId(svc, body.priority) && IsValidObjectId(svc, body.department)
        && body.department.s in departments && body.priority.s in priorities
        && !body.description.Null?
      ensures reply.code == 201 ==>
        created == Some(NewTicket(body.title.s, if body.description.Str? then body.description.s else "",
                                  body.priority.s, body.department.s, userId.value,
                                  if IsValidObjectId(svc, body.assignedTo) then Some(body.assignedTo.s) else None,
                                  now))
        && tickets == old(tickets)[newId := created.value]
      ensures reply.code != 201 ==> created.None? && tickets == old(tickets)
      ensures reply.code == 201 || reply.code == 400 || reply.code == 401 || reply.code == 500
    {
      created := None;
      if !Present(userId) {
        return Reply(401, "Unauthorized"), None;
      }
      var description := if body.description.Undefined? then Str("") else body.description;
      if !TitleGiven(body.title) {
        return Reply(400, "Title is required"), None;
      }
      if !IsValidObjectId(svc, body.priority) || !IsValidObjectId(svc, body.department) {
        return Reply(400, "Invalid reference ID"), None;
      }
      if body.department.s !in departments || body.priority.s !in priorities {
        return Reply(400, "Invalid department or priority"), None;
      }
      if description.Null? {
        // `description.trim()` on null throws before the document is built.
        return Reply(500, "Server error"), None;
      }
      var assignee := if IsValidObjectId(svc, body.assignedTo) then Some(body.assignedTo.s) else None;
      var t := NewTicket(body.title.s, description.s, body.priority.s, body.department.s, userId.value, assignee, now);
      NewTicketDefaults(svc, body.title.s, description.s, body.priority.s, body.department.s, userId.value, assignee, now);
      if !SaveOk(svc, t) {
        // The author id from the token does not cast to an ObjectId: validation fails.
        return Reply(500, "Server error"), None;
      }
      NewTicketValid(svc, body.title.s, description.s, body.priority.s, body.department.s, userId.value, assignee, now);
      StoreValidPut(svc, tickets, newId, t);
      tickets := tickets[newId := t];
      reply, created := Reply(201, ""), Some(t);
    }

    /** `getMyTickets`: the caller's tickets, each once, newest first. */
    method GetMyTickets(userId: Option<string>) returns (reply: Reply, ids: seq<string>)
      ensures !Present(userId) ==> reply == Reply(401, "Unauthorized") && ids == []
      ensures Present(userId) ==> reply.code == 200
      ensures Present(userId) ==>
        forall id :: multiset(ids)[id] == (if id in tickets && tickets[id].createdBy == userId.value then 1 else 0)
      ensures forall id :: id in ids ==> id in tickets
      ensures forall i :: 0 <= i < |ids| - 1 ==> tickets[ids[i]].createdAt >= tickets[ids[i + 1]].createdAt
    {
      if !Present(userId) {
        return Reply(401, "Unauthorized"), [];
      }
      var m := tickets;
      var all := KeysOf(m);
      var mine := CreatedBy(m, all, userId.value);
      var newestFirst := (a: string, b: string) => CreatedAtOf(m, a) >= CreatedAtOf(m, b);
      assert Total(newestFirst);
      ids := SortBy(mine, newestFirst);
      forall id | id in ids
        ensures id in tickets
      {
        assert id in multiset(ids);
      }
      reply := Reply(200, "");
    }

    /** `getAllTickets`: every ticket once, newest first. */
    method GetAllTickets() returns (reply: Reply, ids: seq<string>)
      ensures reply.code == 200
      ensures forall id :: multiset(ids)[id] == (if id in tickets then 1 else 0)
      ensures forall id :: id in ids ==> id in tickets
      ensures forall i :: 0 <= i < |ids| - 1 ==> tickets[ids[i]].createdAt >= tickets[ids[i + 1]].createdAt
    {
      var m := tickets;
      var all := KeysOf(m);
      var newestFirst := (a: string, b: string) => CreatedAtOf(m, a) >= CreatedAtOf(m, b);
      assert Total(newestFirst);
      ids := SortBy(all, newestFirst);
      forall id
        ensures multiset(ids)[id] == (if id in tickets then 1 else 0)
      {
        assert multiset(ids)[id] == multiset(all)[id];
        DistinctMultiset(all);
      }
      forall id | id in ids
        ensures id in tickets
      {
        assert id in multiset(ids);
      }
      reply := Reply(200, "");
    }

    /** `getTicketById`: an id that is not an ObjectId is refused with 400, an unknown one with
        404; otherwise the stored ticket is sent. */
    method GetTicketById(id: string) returns (reply: Reply, ticket: Option<Ticket>)
      ensures !ValidId(svc, id) ==> reply == Reply(400, "Invalid ticket ID") && ticket.None?
      ensures ValidId(svc, id) && id !in tickets ==> reply == Reply(404, "Ticket not found") && ticket.None?
      ensures reply.code == 200 <==> ValidId(svc, id) && id in tickets
      ensures reply.code == 200 ==> ticket == Some(tickets[id])
    {
      if !ValidId(svc, id) {
        return Reply(400, "Invalid ticket ID"), None;
      }
      if id !in tickets {
        return Reply(404, "Ticket not found"), None;
      }
      reply, ticket := Reply(200, ""), Some(tickets[id]);
    }

    /** `updateTicket` with the request body `u` at time `now`. */
    method UpdateTicket(id: string, u: TicketUpdate, now: int) returns (reply: Reply, updated: Option<Ticket>)
      requires Valid()
      modifies this
      ensures Valid()
      ensures !ValidId(svc, id) ==> reply == Reply(400, "Invalid ticket ID")
      ensures ValidId(svc, id) && id !in old(tickets) ==> reply == Reply(404, "Ticket not found")
      ensures ValidId(svc, id) && id in old(tickets) && UpdateRejection(svc, u).Some? ==>
        reply == UpdateRejection(svc, u).value
      ensures reply.code == 200 <==>
        ValidId(svc, id) && id in old(tickets) && UpdateRejection(svc, u).None?
        && SaveOk(svc, Merged(old(tickets)[id], u, now))
      ensures reply.code == 200 ==>
        updated == Some(Merged(old(tickets)[id], u, now)) && tickets == old(tickets)[id := updated.value]
      ensures reply.code != 200 ==> updated.None? && tickets == old(tickets)
      ensures reply.code == 200 || reply.code == 400 || reply.code == 404 || reply.code == 500
    {
      updated := None;
      if !ValidId(svc, id) {
        return Reply(400, "Invalid ticket ID"), None;
      }
      if id !in tickets {
        return Reply(404, "Ticket not found"), None;
      }
      var ticket := tickets[id];
      ghost var original := ticket;
      if Truthy(u.priority) && !IsValidObjectId(svc, u.priority) {
        return Reply(400, "Invalid priority ID"), None;
      }
      if Truthy(u.department) && !IsValidObjectId(svc, u.department) {
        return Reply(400, "Invalid department ID"), None;
      }
      if Truthy(u.assignedTo) && !IsValidObjectId(svc, u.assignedTo) {
        return Reply(400, "Invalid assigned user ID"), None;
      }
      if Present(u.status) {
        var s := ParseStatus(u.status.value);
        if s.None? {
          return Reply(400, "Invalid status"), None;
        }
        if s.value == Resolved {
          ticket := ticket.(resolvedAt := Some(now));
          ticket := ticket.(resolution := Trim(if Present(u.resolution) then u.resolution.value else ticket.resolution));
        }
        ticket := ticket.(status := s.value);
      }
      assert ticket == StatusStep(original, u, now);
      ticket := CopyWhitelisted(ticket, u);
      if !SaveOk(svc, ticket) {
        // A required path is empty or a reference does not cast: validation fails in `save`.
        return Reply(500, "Server error"), None;
      }
      MergedValid(svc, original, u, now);
      StoreValidPut(svc, tickets, id, ticket);
      tickets := tickets[id := ticket];
      reply, updated := Reply(200, ""), Some(ticket);
    }

    /** `deleteTicket`. */
    method DeleteTicket(id: string) returns (reply: Reply)
      requires Valid()
      modifies this
      ensures Valid()
      ensures !ValidId(svc, id) ==> reply == Reply(400, "Invalid ticket ID") && tickets == old(tickets)
      ensures ValidId(svc, id) && id !in old(tickets) ==> reply == Reply(404, "Ticket not found") && tickets == old(tickets)
      ensures ValidId(svc, id) && id in old(tickets) ==> reply == Reply(200, "Ticket deleted") && tickets == old(tickets) - {id}
    {
      if !ValidId(svc, id) {
        return Reply(400, "Invalid ticket ID");
      }
      if id !in tickets {
        return Reply(404, "Ticket not found");
      }
      StoreValidRemove(svc, tickets, id);
      tickets := tickets - {id};
      reply := Reply(200, "Ticket deleted");
    }

    /** `getTicketStats`: one entry per status in `TICKET_STATUSES` order, then the total. */
    method GetTicketStats() returns (stats: seq<(string, nat)>)
      ensures |stats| == 7
      ensures forall i :: 0 <= i < 6 ==> stats[i] == (StatusName(AllStatuses[i]), CountStatus(tickets, AllStatuses[i]))
      ensures stats[6] == ("total", |tickets|)
      ensures SumCounts(tickets, AllStatuses) == stats[6].1
    {
      stats := [];
      var i := 0;
      while i < |TICKET_STATUSES|
        invariant 0 <= i <= 6
        invariant |stats| == i
        invariant forall j :: 0 <= j < i ==> stats[j] == (StatusName(AllStatuses[j]), CountStatus(tickets, AllStatuses[j]))
      {
        StatusDomain();
        var s := AllStatuses[i];
        var n := |set id | id in tickets && tickets[id].status == s|;
        stats := stats + [(TICKET_STATUSES[i], n)];
        i := i + 1;
      }
      stats := stats + [("total", |tickets|)];
      StatusCountsPartition(tickets);
    }
  }
}
