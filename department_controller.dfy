/** The handlers of `backend/controllers/departmentController.js` over the department
    collection, a map from document id to name. */
module DepartmentController {
  import opened Common
  import opened Strings
  import opened TicketModel
  import opened Catalog

  class DepartmentStore {
    const svc: Services
    var departments: map<string, string>

    ghost predicate Valid()
      reads this
    {
      CatalogValid(svc, departments)
    }

    constructor (svc: Services)
      ensures this.svc == svc && departments == map[] && Valid()
    {
      this.svc := svc;
      departments := map[];
    }

    /** `getDepartments`: every department once, ascending by name. */
    method GetDepartments() returns (reply: Reply, data: seq<(string, string)>)
      ensures reply.code == 200
      ensures |data| == |departments|
      ensures forall i :: 0 <= i < |data| ==> data[i].0 in departments && data[i].1 == departments[data[i].0]
      ensures forall id :: id in departments ==> exists i :: 0 <= i < |data| && data[i].0 == id
      ensures forall i :: 0 <= i < |data| - 1 ==> StrLe(data[i].1, data[i + 1].1)
    {
      data := ListByName(departments);
      reply := Reply(200, "");
    }

    /** `createDepartment` with the body's `name`; `newId` is the id the database assigns. */
    method CreateDepartment(name: Option<string>, newId: string) returns (reply: Reply)
      requires Valid()
      requires ValidId(svc, newId) && newId !in departments
      modifies this
      ensures Valid()
      ensures RequestedName(name).None? ==> reply == Reply(400, "Name is required")
      ensures RequestedName(name).Some? && NameTaken(old(departments), RequestedName(name).value) ==>
        reply == Reply(400, "Department already exists")
      ensures reply.code == 201 <==>
        RequestedName(name).Some? && !NameTaken(old(departments), RequestedName(name).value)
      ensures reply.code == 201 ==> departments == old(departments)[newId := Trim(name.value)]
      ensures reply.code != 201 ==> departments == old(departments)
      ensures reply.code == 201 || reply.code == 400
    {
      var n := RequestedName(name);
      if n.None? {
        return Reply(400, "Name is required");
      }
      if exists k :: k in departments && departments[k] == n.value {
        return Reply(400, "Department already exists");
      }
      CatalogPut(svc, departments, newId, n.value);
      departments := departments[newId := n.value];
      reply := Reply(201, "");
    }

    /** `updateDepartment` of the route's `id` to the body's `name`. The name clash is looked up
        before the id is cast, so a clash is reported even for an id that cannot exist. */
    method UpdateDepartment(id: string, name: Option<string>) returns (reply: Reply)
      requires Valid()
      modifies this
      ensures Valid()
      ensures RequestedName(name).None? ==> reply == Reply(400, "Name is required")
      ensures RequestedName(name).Some? && NameHeldByOther(old(departments), RequestedName(name).value, id) ==>
        reply == Reply(400, "Another department already uses this name")
      ensures (RequestedName(name).Some? && !NameHeldByOther(old(departments), RequestedName(name).value, id)
               && !ValidId(svc, id)) ==>
        reply == Reply(500, "Server error")
      ensures (RequestedName(name).Some? && !NameHeldByOther(old(departments), RequestedName(name).value, id)
               && ValidId(svc, id) && id !in old(departments)) ==>
        reply == Reply(404, "Department not found")
      ensures reply.code == 200 <==>
        RequestedName(name).Some? && !NameHeldByOther(old(departments), RequestedName(name).value, id)
        && ValidId(svc, id) && id in old(departments)
      ensures reply.code == 200 ==> departments == old(departments)[id := Trim(name.value)]
      ensures reply.code != 200 ==> departments == old(departments)
    {
      var n := RequestedName(name);
      if n.None? {
        return Reply(400, "Name is required");
      }
      if exists k :: k in departments && departments[k] == n.value && k != id {
        return Reply(400, "Another department already uses this name");
      }
      if !ValidId(svc, id) {
        // `findByIdAndUpdate` cannot cast the id.
        return Reply(500, "Server error");
      }
      if id !in departments {
        return Reply(404, "Department not found");
      }
      CatalogPut(svc, departments, id, n.value);
      departments := departments[id := n.value];
      reply := Reply(200, "");
    }

    /** `deleteDepartment` of the route's `id`. */
    method DeleteDepartment(id: string) returns (reply: Reply)
      requires Valid()
      modifies this
      ensures Valid()
      ensures !ValidId(svc, id) ==> reply == Reply(500, "Server error") && departments == old(departments)
      ensures ValidId(svc, id) && id !in old(departments) ==>
        reply == Reply(404, "Department not found") && departments == old(departments)
      ensures ValidId(svc, id) && id in old(departments) ==>
        reply == Reply(200, "Deleted successfully") && departments == old(departments) - {id}
    {
      if !ValidId(svc, id) {
        return Reply(500, "Server error");
      }
      if id !in departments {
        return Reply(404, "Department not found");
      }
      CatalogRemove(svc, departments, id);
      departments := departments - {id};
      reply := Reply(200, "Deleted successfully");
    }
  }
}
