/**
 * The dialog that adds or edits a department
 * (src/pages/enterprise/settings/DepartmentFormModal.tsx): a name and a code are required,
 * and the parent is picked among the top-level departments.
 */
module DepartmentFormModal {
  import opened Wrappers
  import opened JsStrings
  import opened Lists

  datatype Department = Department(id: string, name: string, code: string, parentId: Option<string>, description: string)

  /** `Omit<Department, 'id'>`: what the dialog edits and hands to `onSubmit`. */
  datatype DepartmentData = DepartmentData(name: string, code: string, parentId: Option<string>, description: string)

  datatype DepartmentField = NameField | CodeField

  type Errors = map<DepartmentField, string>

  const NameRequired := "请输入部门名称"
  const CodeRequired := "请输入部门编码"

  /** The message `validateForm` leaves for one field: a name or a code that is blank
      after trimming is flagged; the description is never checked. */
  function FieldError(data: DepartmentData, field: DepartmentField): Option<string> {
    match field
    case NameField => if IsBlank(data.name) then Some(NameRequired) else None
    case CodeField => if IsBlank(data.code) then Some(CodeRequired) else None
  }

  const AllFields: set<DepartmentField> := {NameField, CodeField}

  lemma EveryFieldListed(field: DepartmentField)
    ensures field in AllFields
  {
    match field
    case NameField =>
    case CodeField =>
  }

  /** `validateForm`: the error record holds a message for exactly the fields that have
      one. */
  function ValidateForm(data: DepartmentData): (errors: Errors)
    ensures forall field :: field in errors <==> FieldError(data, field).Some?
    ensures forall field :: field in errors ==> errors[field] == FieldError(data, field).value
  {
    assert forall field :: field in AllFields by {
      forall field: DepartmentField ensures field in AllFields {
        EveryFieldListed(field);
      }
    }
    map field | field in AllFields && FieldError(data, field).Some? :: FieldError(data, field).value
  }

  /** The form passes exactly when the name and the code both have text. */
  lemma ValidFormIff(data: DepartmentData)
    ensures ValidateForm(data) == map[] <==> !IsBlank(data.name) && !IsBlank(data.code)
  {
    var errors := ValidateForm(data);
    if errors == map[] {
      assert NameField !in errors && CodeField !in errors;
    } else {
      var k :| k in errors;
      assert FieldError(data, k).Some?;
    }
  }

  /** The parent and the description play no part in the checks. */
  lemma OnlyNameAndCodeChecked(data: DepartmentData, parentId: Option<string>, description: string)
    ensures ValidateForm(data.(parentId := parentId, description := description)) == ValidateForm(data)
  {
    var other := data.(parentId := parentId, description := description);
    assert forall field :: FieldError(other, field) == FieldError(data, field);
  }

  /** The options of the parent select after "无上级部门": the departments without a
      parent, in list order. */
  function ParentOptions(departments: seq<Department>): (r: seq<Department>)
    ensures forall i :: 0 <= i < |r| ==> r[i] in departments && r[i].parentId.None?
    ensures forall i :: 0 <= i < |departments| && departments[i].parentId.None? ==> departments[i] in r
    ensures IsSubsequence(r, departments)
  {
    var isRoot := (d: Department) => d.parentId.None?;
    FilterIsSubsequence(departments, isRoot);
    Filter(departments, isRoot)
  }

  /** The options do not leave out the edited department: a top-level department being
      edited is offered as its own parent. */
  lemma EditedRootIsOffered(departments: seq<Department>, i: int)
    requires 0 <= i < |departments| && departments[i].parentId.None?
    ensures departments[i] in ParentOptions(departments)
  {
  }

  /** `e.target.value || null`: the empty option stores no parent, any other option stores
      its department's id. */
  function ParentChoice(value: string): (r: Option<string>)
    ensures r.None? <==> value == ""
    ensures r.Some? ==> r.value == value
  {
    if value == "" then None else Some(value)
  }

  /** The initial form: the edited department's values with `||` defaults, so an empty
      parent id also starts as no parent; empty texts and no parent for a new department. */
  function InitialData(editData: Option<Department>): (r: DepartmentData)
    ensures editData.None? ==> r == DepartmentData("", "", None, "")
    ensures editData.Some? ==> r.name == editData.value.name && r.code == editData.value.code
    ensures editData.Some? ==> r.description == editData.value.description
    ensures r.parentId.Some? <==> editData.Some? && editData.value.parentId.Some? && editData.value.parentId.value != ""
    ensures r.parentId.Some? ==> r.parentId == editData.value.parentId
  {
    match editData
    case None => DepartmentData("", "", None, "")
    case Some(e) =>
      var parent := if e.parentId.Some? && e.parentId.value != "" then e.parentId else None;
      DepartmentData(e.name, e.code, parent, e.description)
  }

  /** The dialog's state; `submitted` is the latest form handed to `onSubmit`. */
  class Dialog {
    const departments: seq<Department>
    var formData: DepartmentData
    var formErrors: Errors
    var submitted: Option<DepartmentData>

    constructor(departments: seq<Department>, editData: Option<Department>)
      ensures this.departments == departments
      ensures formData == InitialData(editData) && formErrors == map[] && submitted == None
    {
      this.departments := departments;
      formData := InitialData(editData);
      formErrors := map[];
      submitted := None;
    }

    /** The options on offer. */
    function Options(): seq<Department>
      reads this
    {
      ParentOptions(departments)
    }

    /** `handleSubmit`: with errors they are shown; without, the form goes to
        `onSubmit` and the shown errors stay. */
    method HandleSubmit()
      modifies this
      ensures formData == old(formData)
      ensures var errors := ValidateForm(formData);
        if errors != map[] then formErrors == errors && submitted == old(submitted)
        else formErrors == old(formErrors) && submitted == Some(formData)
    {
      var data := formData;
      var errors := ValidateForm(data);
      if errors != map[] {
        formErrors := errors;
        return;
      }
      submitted := Some(formData);
    }

    /** The parent select. */
    method ParentChange(value: string)
      modifies this
      ensures formData == old(formData).(parentId := ParentChoice(value))
      ensures formErrors == old(formErrors) && submitted == old(submitted)
    {
      formData := formData.(parentId := ParentChoice(value));
    }

    /** The name input: the text is stored and the name error cleared. */
    method NameChange(value: string)
      modifies this
      ensures formData == old(formData).(name := value)
      ensures formErrors == old(formErrors) - {NameField} && submitted == old(submitted)
    {
      formData := formData.(name := value);
      if NameField in formErrors {
        formErrors := formErrors - {NameField};
      }
    }

    /** The code input: the text is stored and the code error cleared. */
    method CodeChange(value: string)
      modifies this
      ensures formData == old(formData).(code := value)
      ensures formErrors == old(formErrors) - {CodeField} && submitted == old(submitted)
    {
      formData := formData.(code := value);
      if CodeField in formErrors {
        formErrors := formErrors - {CodeField};
      }
    }

    /** The description input: the text is stored; no error is touched. */
    method DescriptionChange(value: string)
      modifies this
      ensures formData == old(formData).(description := value)
      ensures formErrors == old(formErrors) && submitted == old(submitted)
    {
      formData := formData.(description := value);
    }
  }
}
