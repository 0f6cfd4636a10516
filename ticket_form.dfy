/** The state and handlers of `frontend/src/components/Tickets/TicketForm.jsx`. */
module TicketForm {
  import opened Common

  /** The four controlled inputs of the form. */
  datatype Form = Form(title: string, description: string, department: string, priority: string)

  /** The form as it is first rendered. */
  const INITIAL := Form("", "", "", "")

  datatype FieldName = Title | Description | Department | Priority

  /** The input called `name`, if the form has one. */
  function FieldOf(name: string): (f: Option<FieldName>)
    ensures f == Some(Title) <==> name == "title"
    ensures f == Some(Description) <==> name == "description"
    ensures f == Some(Department) <==> name == "department"
    ensures f == Some(Priority) <==> name == "priority"
  {
    if name == "title" then Some(Title)
    else if name == "description" then Some(Description)
    else if name == "department" then Some(Department)
    else if name == "priority" then Some(Priority)
    else None
  }

  function Get(form: Form, f: FieldName): string
  {
    match f
    case Title => form.title
    case Description => form.description
    case Department => form.department
    case Priority => form.priority
  }

  /** `handleChange`: `{ ...form, [name]: value }` for the input that changed. */
  function HandleChange(form: Form, name: string, value: string): (r: Form)
    ensures FieldOf(name).Some? ==> Get(r, FieldOf(name).value) == value
    ensures forall f :: Some(f) != FieldOf(name) ==> Get(r, f) == Get(form, f)
  {
    match FieldOf(name)
    case Some(Title) => form.(title := value)
    case Some(Description) => form.(description := value)
    case Some(Department) => form.(department := value)
    case Some(Priority) => form.(priority := value)
    case None => form
  }

  /** The object handed to `onSubmit`. */
  datatype Payload = Payload(title: string, description: string, priority: string, department: string)

  /** `handleSubmit`: nothing is sent when the title, department or priority is empty;
      otherwise the four fields go out exactly as typed. */
  function HandleSubmit(form: Form): (p: Option<Payload>)
    ensures p.None? <==> form.title == "" || form.department == "" || form.priority == ""
    ensures p.Some? ==>
      p.value.title == form.title && p.value.description == form.description
      && p.value.priority == form.priority && p.value.department == form.department
  {
    if form.title == "" || form.department == "" || form.priority == "" then None
    else Some(Payload(form.title, form.description, form.priority, form.department))
  }

  /** Writing an input twice keeps the last value, and writing back what an input holds changes
      nothing. */
  lemma HandleChangeLastWins(form: Form, name: string, v1: string, v2: string)
    ensures HandleChange(HandleChange(form, name, v1), name, v2) == HandleChange(form, name, v2)
    ensures FieldOf(name).Some? ==> HandleChange(form, name, Get(form, FieldOf(name).value)) == form
  {
  }

  /** From the initial form, typing a title, a department and a priority is enough to submit,
      and the description then goes out empty. */
  lemma FilledFormSubmits(title: string, department: string, priority: string)
    requires title != "" && department != "" && priority != ""
    ensures HandleSubmit(HandleChange(HandleChange(HandleChange(INITIAL, "title", title), "department", department),
                                      "priority", priority))
            == Some(Payload(title, "", priority, department))
  {
  }
}
