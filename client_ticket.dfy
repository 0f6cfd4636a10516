/** A ticket as the client pages hold it: the JSON the ticket API sends, with its references
    populated into small objects (`populate` of `name`, or of `name email` for users). */
module ClientTicket {
  import opened Common

  /** A reference field: missing or null, a bare string, or a populated object with its `_id`,
      `id` and `name` keys. */
  datatype Ref = NoRef | RefText(s: string) | RefObj(oid: Option<string>, altId: Option<string>, name: Option<string>)

  /** The fields the pages read. `title` and `status` always arrive (a required field and one
      with a default); `description` may be missing on documents stored before its default. */
  datatype Ticket = Ticket(
    id: string,
    title: string,
    description: Option<string>,
    status: string,
    priority: Ref,
    department: Ref,
    createdBy: Ref,
    assignedTo: Ref,
    createdAt: string)

  /** JavaScript truthiness of a reference: objects are truthy, and a string when non-empty. */
  predicate RefTruthy(r: Ref) {
    r.RefObj? || (r.RefText? && r.s != "")
  }

  /** `r?.name` for a populated object; a string has no `name`. */
  function NameKey(r: Ref): (n: Option<string>)
    ensures n.Some? ==> r.RefObj?
  {
    if r.RefObj? then r.name else None
  }

  /** `r?.name || fallback`. */
  function NameOr(r: Ref, fallback: string): (n: string)
    ensures n == fallback || (r.RefObj? && r.name == Some(n) && n != "")
  {
    if r.RefObj? && Present(r.name) then r.name.value else fallback
  }

  /** The ids of a list of tickets. */
  function IdsOf(ts: seq<Ticket>): (ids: set<string>)
    ensures forall i :: 0 <= i < |ts| ==> ts[i].id in ids
    ensures forall id :: id in ids ==> exists i :: 0 <= i < |ts| && ts[i].id == id
  {
    set i | 0 <= i < |ts| :: ts[i].id
  }

  /** The status of each ticket of a list, in order. */
  function StatusesOf(ts: seq<Ticket>): (r: seq<string>)
    ensures |r| == |ts| && forall i :: 0 <= i < |ts| ==> r[i] == ts[i].status
  {
    seq(|ts|, i requires 0 <= i < |ts| => ts[i].status)
  }

  /** The local list the pages keep after a delete: every ticket but those with the deleted
      id, each as often as before and in their order. */
  function WithoutTicket(ts: seq<Ticket>, id: string): (r: seq<Ticket>)
    ensures forall t :: t in r <==> t in ts && t.id != id
    ensures forall t :: multiset(r)[t] == if t.id == id then 0 else multiset(ts)[t]
    ensures SubsequenceOf(r, ts)
    ensures id !in IdsOf(r)
    ensures |r| <= |ts|
  {
    var keep := (t: Ticket) => t.id != id;
    FilterSubsequence(ts, keep);
    assert forall t :: multiset(Filter(ts, keep))[t] == if t.id == id then 0 else multiset(ts)[t] by {
      forall t
        ensures multiset(Filter(ts, keep))[t] == if t.id == id then 0 else multiset(ts)[t]
      {
        FilterMultiset(ts, keep, t);
      }
    }
    Filter(ts, keep)
  }
}
