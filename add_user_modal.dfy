/**
 * The administrator's dialog that adds a user to an enterprise
 * (src/pages/admin/enterprises/AddUserModal.tsx): five values, each required, none
 * trimmed or checked for format.
 */
module AddUserModal {
  import opened Wrappers

  datatype UserField = Name | Email | Phone | Role | Department

  datatype UserData = UserData(name: string, email: string, phone: string, role: string, department: string)

  type Errors = map<UserField, string>

  function FieldValue(data: UserData, field: UserField): string {
    match field
    case Name => data.name
    case Email => data.email
    case Phone => data.phone
    case Role => data.role
    case Department => data.department
  }

  /** `{ ...prev, [field]: value }`: the field takes the value and the others keep
      theirs. */
  function WithField(data: UserData, field: UserField, value: string): (r: UserData)
    ensures FieldValue(r, field) == value
    ensures forall other :: other != field ==> FieldValue(r, other) == FieldValue(data, other)
  {
    match field
    case Name => data.(name := value)
    case Email => data.(email := value)
    case Phone => data.(phone := value)
    case Role => data.(role := value)
    case Department => data.(department := value)
  }

  function RequiredMessage(field: UserField): string {
    match field
    case Name => "请输入姓名"
    case Email => "请输入邮箱"
    case Phone => "请输入手机号"
    case Role => "请选择角色"
    case Department => "请输入部门"
  }

  const AllFields: set<UserField> := {Name, Email, Phone, Role, Department}

  lemma EveryFieldListed(field: UserField)
    ensures field in AllFields
  {
    match field
    case Name => case Email => case Phone => case Role => case Department =>
  }

  /** The checks of `handleSubmit`: exactly the empty values get their message. */
  function ValidateForm(data: UserData): (errors: Errors)
    ensures forall field :: field in errors <==> FieldValue(data, field) == ""
    ensures forall field :: field in errors ==> errors[field] == RequiredMessage(field)
  {
    assert forall field :: field in AllFields by {
      forall field: UserField ensures field in AllFields {
        EveryFieldListed(field);
      }
    }
    map field | field in AllFields && FieldValue(data, field) == "" :: RequiredMessage(field)
  }

  /** The form passes exactly when no value is empty; spaces count as a value. */
  lemma ValidFormIff(data: UserData)
    ensures ValidateForm(data) == map[] <==>
      data.name != "" && data.email != "" && data.phone != "" && data.role != "" && data.department != ""
    ensures ValidateForm(UserData(" ", " ", " ", " ", " ")) == map[]
  {
    var errors := ValidateForm(data);
    if errors == map[] {
      assert Name !in errors && Email !in errors && Phone !in errors && Role !in errors && Department !in errors;
    } else {
      var k :| k in errors;
    }
  }

  /** The dialog's state: `submitted` is the latest value handed to `onSubmit`, and
      `closed` records the `onClose` that follows it. */
  class Modal {
    var formData: UserData
    var formErrors: Errors
    var submitted: Option<UserData>
    var closed: bool

    constructor()
      ensures formData == UserData("", "", "", "", "") && formErrors == map[]
      ensures submitted == None && !closed
    {
      formData := UserData("", "", "", "", "");
      formErrors := map[];
      submitted := None;
      closed := false;
    }

    /** `handleSubmit`: with errors they replace the shown ones; without, the form goes to
        `onSubmit` and the dialog closes. */
    method HandleSubmit()
      modifies this
      ensures formData == old(formData)
      ensures var errors := ValidateForm(formData);
        if errors != map[] then formErrors == errors && submitted == old(submitted) && closed == old(closed)
        else formErrors == old(formErrors) && submitted == Some(formData) && closed
    {
      var errors := ValidateForm(formData);
      if |errors| > 0 {
        formErrors := errors;
        return;
      }
      submitted := Some(formData);
      closed := true;
    }

    /** `handleInputChange`: the field takes the value and only its own error is
        cleared. */
    method HandleInputChange(field: UserField, value: string)
      modifies this
      ensures formData == WithField(old(formData), field, value)
      ensures formErrors == old(formErrors) - {field}
      ensures submitted == old(submitted) && closed == old(closed)
    {
      formData := WithField(formData, field, value);
      if field in formErrors {
        formErrors := formErrors - {field};
      }
    }
  }
}
