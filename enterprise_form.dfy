/**
 * The form that registers a new customer enterprise
 * (src/pages/admin/enterprises/EnterpriseForm.tsx): eight fields are always required, a
 * trial customer also needs its trial days and a formal customer its contract dates.
 */
module EnterpriseForm {
  import opened Wrappers

  /** The form's inputs, each named by its `name` attribute. */
  datatype Field =
    | Name | Industry | Size | Location | Description
    | ContactName | ContactTitle | ContactEmail | ContactPhone
    | SalesName | SalesEmail | CustomerStatus | TrialDays
    | ContractStartDate | ContractEndDate | Notes

  /** `formData` without the logo: `handleInputChange` stores the input's text under the
      input's name, so every value is a text; a field that was never set is absent
      (`undefined`). */
  type FormData = map<Field, string>

  type Errors = map<Field, string>

  /** The initial `formData`: empty texts, a formal customer, and no trial days or
      contract dates. */
  const InitialData: FormData := map[
    Name := "", Industry := "", Size := "", Location := "", Description := "",
    ContactName := "", ContactTitle := "", ContactEmail := "", ContactPhone := "",
    SalesName := "", SalesEmail := "", CustomerStatus := "formal", Notes := ""]

  /** `!formData[field]`: an absent value and the empty text are falsy; any other text,
      `"0"` included, is truthy. */
  predicate Missing(data: FormData, field: Field) {
    field !in data || data[field] == ""
  }

  predicate IsTrial(data: FormData) {
    CustomerStatus in data && data[CustomerStatus] == "trial"
  }

  /** The message of a required field. */
  function RequiredMessage(field: Field): Option<string> {
    match field
    case Name => Some("请输入企业名称")
    case Industry => Some("请选择所属行业")
    case Size => Some("请选择企业规模")
    case Location => Some("请输入企业地址")
    case ContactName => Some("请输入联系人姓名")
    case ContactEmail => Some("请输入联系人邮箱")
    case ContactPhone => Some("请输入联系人电话")
    case SalesName => Some("请输入销售姓名")
    case TrialDays => Some("请输入试用天数")
    case ContractStartDate => Some("请选择合同开始日期")
    case ContractEndDate => Some("请选择合同结束日期")
    case _ => None
  }

  /** The fields every customer must fill in. */
  predicate AlwaysRequired(field: Field) {
    || field.Name? || field.Industry? || field.Size? || field.Location?
    || field.ContactName? || field.ContactEmail? || field.ContactPhone? || field.SalesName?
  }

  /** The fields no check ever looks at. */
  predicate Optional(field: Field) {
    field.Description? || field.ContactTitle? || field.SalesEmail? || field.Notes? || field.CustomerStatus?
  }

  /** Whether `validateForm` checks the field for this form: the eight always, the trial
      days for a trial customer, the contract dates for any other. */
  predicate Checked(data: FormData, field: Field) {
    || AlwaysRequired(field)
    || (field == TrialDays && IsTrial(data))
    || ((field == ContractStartDate || field == ContractEndDate) && !IsTrial(data))
  }

  /** The message `validateForm` leaves for one field, if any. */
  function FieldError(data: FormData, field: Field): Option<string> {
    if Checked(data, field) && Missing(data, field) then RequiredMessage(field) else None
  }

  const AllFields: set<Field> := {
    Name, Industry, Size, Location, Description, ContactName, ContactTitle, ContactEmail, ContactPhone,
    SalesName, SalesEmail, CustomerStatus, TrialDays, ContractStartDate, ContractEndDate, Notes}

  lemma EveryFieldListed(field: Field)
    ensures field in AllFields
  {
    match field
    case Name => case Industry => case Size => case Location => case Description =>
    case ContactName => case ContactTitle => case ContactEmail => case ContactPhone =>
    case SalesName => case SalesEmail => case CustomerStatus => case TrialDays =>
    case ContractStartDate => case ContractEndDate => case Notes =>
  }

  /** `validateForm`: the error record holds a message for exactly the fields that have
      one. */
  function ValidateForm(data: FormData): (errors: Errors)
    ensures forall field :: field in errors <==> FieldError(data, field).Some?
    ensures forall field :: field in errors ==> errors[field] == FieldError(data, field).value
  {
    assert forall field :: field in AllFields by {
      forall field: Field ensures field in AllFields {
        EveryFieldListed(field);
      }
    }
    map field | field in AllFields && FieldError(data, field).Some? :: FieldError(data, field).value
  }

  /** Each of the eight always-required fields is flagged exactly when it is empty or
      absent, whatever kind of customer; the optional fields are never flagged. */
  lemma RequiredAndOptionalFields(data: FormData, field: Field)
    ensures AlwaysRequired(field) ==> (field in ValidateForm(data) <==> Missing(data, field))
    ensures Optional(field) ==> field !in ValidateForm(data)
  {
  }

  /** A trial customer is asked for its trial days and never for contract dates; any other
      customer is asked for both contract dates and never for trial days. */
  lemma CustomerKindBranches(data: FormData)
    ensures IsTrial(data) ==>
      && (TrialDays in ValidateForm(data) <==> Missing(data, TrialDays))
      && ContractStartDate !in ValidateForm(data) && ContractEndDate !in ValidateForm(data)
    ensures !IsTrial(data) ==>
      && TrialDays !in ValidateForm(data)
      && (ContractStartDate in ValidateForm(data) <==> Missing(data, ContractStartDate))
      && (ContractEndDate in ValidateForm(data) <==> Missing(data, ContractEndDate))
  {
  }

  /** The initial form is a formal customer with nothing filled in: every always-required
      field and both contract dates are flagged, and nothing else. */
  lemma InitialFormErrors()
    ensures forall field :: field in ValidateForm(InitialData) <==>
      AlwaysRequired(field) || field == ContractStartDate || field == ContractEndDate
  {
    assert !IsTrial(InitialData);
  }

  /** A form passes exactly when every checked field holds a non-empty text. */
  lemma ValidFormIff(data: FormData)
    ensures ValidateForm(data) == map[] <==> forall field :: Checked(data, field) ==> !Missing(data, field)
  {
    var errors := ValidateForm(data);
    if errors == map[] {
      forall field | Checked(data, field) ensures !Missing(data, field) {
        assert field !in errors;
      }
    } else {
      var k :| k in errors;
      assert FieldError(data, k).Some?;
    }
  }

  /** The form's state; `navigated` records that the form was submitted and the screen
      went back to the enterprise list. */
  class Form {
    var formData: FormData
    var formErrors: Errors
    var navigated: bool

    constructor()
      ensures formData == InitialData && formErrors == map[] && !navigated
    {
      formData := InitialData;
      formErrors := map[];
      navigated := false;
    }

    /** `handleInputChange`: the input's text is stored under its name and only that
        field's error is cleared. */
    method HandleInputChange(field: Field, value: string)
      modifies this
      ensures formData == old(formData)[field := value]
      ensures formErrors == old(formErrors) - {field}
      ensures navigated == old(navigated)
    {
      formData := formData[field := value];
      if field in formErrors {
        formErrors := formErrors - {field};
      }
    }

    /** `handleSubmit`: with errors they are shown and the screen stays; without, it goes
        to the enterprise list. */
    method HandleSubmit()
      modifies this
      ensures formData == old(formData)
      ensures var errors := ValidateForm(formData);
        if errors != map[] then formErrors == errors && navigated == old(navigated)
        else formErrors == old(formErrors) && navigated
    {
      var errors := ValidateForm(formData);
      if errors != map[] {
        formErrors := errors;
        return;
      }
      navigated := true;
    }
  }
}
