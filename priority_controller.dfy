/** The handlers of `backend/controllers/priorityController.js` over the priority collection, a
    map from document id to name. */
module PriorityController {
  import opened Common
  import opened Strings
  import opened TicketModel
  import opened Catalog

  class PriorityStore {
    const svc: Services
    var priorities: map<string, string>

    ghost predicate Valid()
      reads this
    {
      CatalogValid(svc, priorities)
    }

    constructor (svc: Services)
      ensures this.svc == svc && priorities == map[] && Valid()
    {
      this.svc := svc;
      priorities := map[];
    }

    /** `getPriorities`: every priority once, ascending by name. */
    method GetPriorities() returns (reply: Reply, data: seq<(string, string)>)
      ensures reply.code == 200
      ensures |data| == |priorities|
      ensures forall i :: 0 <= i < |data| ==> data[i].0 in priorities && data[i].1 == priorities[data[i].0]
      ensures forall id :: id in priorities ==> exists i :: 0 <= i < |data| && data[i].0 == id
      ensures forall i :: 0 <= i < |data| - 1 ==> StrLe(data[i].1, data[i + 1].1)
    {
      data := ListByName(priorities);
      reply := Reply(200, "");
    }

    /** `createPriority` with the body's `name`; `newId` is the id the database assigns. */
    method CreatePriority(name: Option<string>, newId: string) returns (reply: Reply)
      requires Valid()
      requires ValidId(svc, newId) && newId !in priorities
      modifies this
      ensures Valid()
      ensures RequestedName(name).None? ==> reply == Reply(400, "Name required")
      ensures RequestedName(name).Some? && NameTaken(old(priorities), RequestedName(name).value) ==>
        reply == Reply(400, "Priority already exists")
      ensures reply.code == 201 <==>
        RequestedName(name).Some? && !NameTaken(old(priorities), RequestedName(name).value)
      ensures reply.code == 201 ==> priorities == old(priorities)[newId := Trim(name.value)]
      ensures reply.code != 201 ==> priorities == old(priorities)
      ensures reply.code == 201 || reply.code == 400
    {
      var n := RequestedName(name);
      if n.None? {
        return Reply(400, "Name required");
      }
      if exists k :: k in priorities && priorities[k] == n.value {
        return Reply(400, "Priority already exists");
      }
      CatalogPut(svc, priorities, newId, n.value);
      priorities := priorities[newId := n.value];
      reply := Reply(201, "");
    }

    /** `updatePriority` of the route's `id` to the body's `name`. The clash query filters on
        `_id: { $ne: id }`, so the id is cast, and can fail, before any name is compared. */
    method UpdatePriority(id: string, name: Option<string>) returns (reply: Reply)
      requires Valid()
      modifies this
      ensures Valid()
      ensures RequestedName(name).None? ==> reply == Reply(400, "Name required")
      ensures RequestedName(name).Some? && !ValidId(svc, id) ==> reply == Reply(500, "Server error")
      ensures RequestedName(name).Some? && ValidId(svc, id) && NameHeldByOther(old(priorities), RequestedName(name).value, id) ==>
        reply == Reply(400, "Priority already exists")
      ensures (RequestedName(name).Some? && ValidId(svc, id)
               && !NameHeldByOther(old(priorities), RequestedName(name).value, id) && id !in old(priorities)) ==>
        reply == Reply(404, "Priority not found")
      ensures reply.code == 200 <==>
        RequestedName(name).Some? && ValidId(svc, id)
        && !NameHeldByOther(old(priorities), RequestedName(name).value, id) && id in old(priorities)
      ensures reply.code == 200 ==> priorities == old(priorities)[id := Trim(name.value)]
      ensures reply.code != 200 ==> priorities == old(priorities)
    {
      var n := RequestedName(name);
      if n.None? {
        return Reply(400, "Name required");
      }
      if !ValidId(svc, id) {
        // Casting `$ne: id` fails.
        return Reply(500, "Server error");
      }
      if exists k :: k in priorities && k != id && priorities[k] == n.value {
        return Reply(400, "Priority already exists");
      }
      if id !in priorities {
        return Reply(404, "Priority not found");
      }
      CatalogPut(svc, priorities, id, n.value);
      priorities := priorities[id := n.value];
      reply := Reply(200, "");
    }

    /** `deletePriority` of the route's `id`. */
    method DeletePriority(id: string) returns (reply: Reply)
      requires Valid()
      modifies this
      ensures Valid()
      ensures !ValidId(svc, id) ==> reply == Reply(500, "Server error") && priorities == old(priorities)
      ensures ValidId(svc, id) && id !in old(priorities) ==>
        reply == Reply(404, "Priority not found") && priorities == old(priorities)
      ensures ValidId(svc, id) && id in old(priorities) ==>
        reply == Reply(200, "Deleted successfully") && priorities == old(priorities) - {id}
    {
      if !ValidId(svc, id) {
        return Reply(500, "Server error");
      }
      if id !in priorities {
        return Reply(404, "Priority not found");
      }
      CatalogRemove(svc, priorities, id);
      priorities := priorities - {id};
      reply := Reply(200, "Deleted successfully");
    }
  }
}
