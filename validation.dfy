/** `validateTicket` of `frontend/src/utils/validation.js`: the client-side check of a ticket
    form, which collects one message per missing field. */
module Validation {
  import opened Common
  import opened Strings

  /** The form fields the check reads; each may be missing. */
  datatype TicketFields = TicketFields(title: Option<string>, description: Option<string>,
                                       priority: Option<string>, departmentId: Option<string>)

  /** `!v?.trim()`: missing, or nothing but white space. */
  predicate Blank(v: Option<string>) {
    v.None? || Trim(v.value) == ""
  }

  const TITLE_REQUIRED := "Title is required"
  const DESCRIPTION_REQUIRED := "Description is required"
  const PRIORITY_REQUIRED := "Priority is required"
  const DEPARTMENT_REQUIRED := "Department is required"

  /** Builds the `errors` object one check at a time; `valid` says whether it stayed empty. */
  method ValidateTicket(form: TicketFields) returns (valid: bool, errors: map<string, string>)
    ensures "title" in errors <==> Blank(form.title)
    ensures "description" in errors <==> Blank(form.description)
    ensures "priority" in errors <==> !Present(form.priority)
    ensures "departmentId" in errors <==> !Present(form.departmentId)
    ensures errors.Keys <= {"title", "description", "priority", "departmentId"}
    ensures "title" in errors ==> errors["title"] == TITLE_REQUIRED
    ensures "description" in errors ==> errors["description"] == DESCRIPTION_REQUIRED
    ensures "priority" in errors ==> errors["priority"] == PRIORITY_REQUIRED
    ensures "departmentId" in errors ==> errors["departmentId"] == DEPARTMENT_REQUIRED
    ensures valid <==> |errors| == 0
    ensures valid <==>
      !Blank(form.title) && !Blank(form.description) && Present(form.priority) && Present(form.departmentId)
  {
    errors := map[];
    if Blank(form.title) {
      errors := errors["title" := TITLE_REQUIRED];
    }
    if Blank(form.description) {
      errors := errors["description" := DESCRIPTION_REQUIRED];
    }
    if !Present(form.priority) {
      errors := errors["priority" := PRIORITY_REQUIRED];
    }
    if !Present(form.departmentId) {
      errors := errors["departmentId" := DEPARTMENT_REQUIRED];
    }
    valid := |errors| == 0;
    MapSizeZero(errors);
  }
}
