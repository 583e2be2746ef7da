/**
 * The dialog that adds or edits an interview location
 * (src/pages/enterprise/settings/LocationFormModal.tsx): an offline meeting room needs a
 * name, a positive capacity and an address; an online meeting only needs a name.
 */
module LocationFormModal {
  import opened Wrappers
  import opened JsStrings

  /** `'线下会议室'` and `'线上会议'`. */
  datatype LocationType = OfflineRoom | OnlineMeeting

  /** The form's fields. The address is always a text: it starts as the edited address or
      `''` and every edit stores the input's value. The capacity is absent (`undefined`)
      or a number. */
  datatype LocationForm = LocationForm(name: string, kind: LocationType, capacity: Option<int>, address: string)

  /** A stored location as handed in for editing. */
  datatype Location = Location(name: string, kind: LocationType, capacity: Option<int>, address: Option<string>)

  datatype LocationField = NameField | CapacityField | AddressField

  type Errors = map<LocationField, string>

  const NameRequired := "请输入地点名称"
  const CapacityRequired := "请输入容纳人数"
  const CapacityTooSmall := "容纳人数必须大于0"
  const AddressRequired := "请输入详细地址"

  /** `!formData.capacity`: an absent capacity and the number 0 are both falsy. */
  predicate CapacityMissing(capacity: Option<int>) {
    capacity.None? || capacity.value == 0
  }

  /** The message `validateForm` leaves for one field, if any. */
  function FieldError(f: LocationForm, field: LocationField): Option<string> {
    match field
    case NameField => if IsBlank(f.name) then Some(NameRequired) else None
    case CapacityField =>
      if f.kind != OfflineRoom then None
      else if CapacityMissing(f.capacity) then Some(CapacityRequired)
      else if f.capacity.value < 1 then Some(CapacityTooSmall)
      else None
    case AddressField => if f.kind == OfflineRoom && IsBlank(f.address) then Some(AddressRequired) else None
  }

  const AllFields: set<LocationField> := {NameField, CapacityField, AddressField}

  lemma EveryFieldListed(field: LocationField)
    ensures field in AllFields
  {
    match field
    case NameField =>
    case CapacityField =>
    case AddressField =>
  }

  /** `validateForm`: the error record holds a message for exactly the fields that have
      one. */
  function ValidateForm(f: LocationForm): (errors: Errors)
    ensures forall field :: field in errors <==> FieldError(f, field).Some?
    ensures forall field :: field in errors ==> errors[field] == FieldError(f, field).value
  {
    assert forall field :: field in AllFields by {
      forall field: LocationField ensures field in AllFields {
        EveryFieldListed(field);
      }
    }
    map field | field in AllFields && FieldError(f, field).Some? :: FieldError(f, field).value
  }

  /** The name is checked for both kinds of location; an online meeting is checked for
      nothing else. */
  lemma OnlineChecksOnlyName(f: LocationForm)
    ensures NameField in ValidateForm(f) <==> IsBlank(f.name)
    ensures f.kind == OnlineMeeting ==> ValidateForm(f).Keys <= {NameField}
  {
  }

  /** The capacity of an offline room: a missing or zero capacity asks for one, a negative
      capacity is refused as too small, and a capacity from 1 up passes. */
  lemma OfflineCapacityMessages(f: LocationForm)
    requires f.kind == OfflineRoom
    ensures CapacityMissing(f.capacity) ==> ValidateForm(f)[CapacityField] == CapacityRequired
    ensures !CapacityMissing(f.capacity) && f.capacity.value < 0 ==>
      ValidateForm(f)[CapacityField] == CapacityTooSmall
    ensures CapacityField !in ValidateForm(f) <==> f.capacity.Some? && f.capacity.value >= 1
    ensures AddressField in ValidateForm(f) <==> IsBlank(f.address)
  {
  }

  /** A form passes exactly when the name has text and, for an offline room, the capacity
      is at least 1 and the address has text. */
  lemma ValidFormIff(f: LocationForm)
    ensures ValidateForm(f) == map[] <==>
      && !IsBlank(f.name)
      && (f.kind == OfflineRoom ==> f.capacity.Some? && f.capacity.value >= 1 && !IsBlank(f.address))
  {
    var errors := ValidateForm(f);
    if errors == map[] {
      assert NameField !in errors && CapacityField !in errors && AddressField !in errors;
    } else {
      var k :| k in errors;
      assert FieldError(f, k).Some?;
    }
  }

  /** The capacity input's `parseInt(value) || undefined`: text that does not start with
      a number, and the number 0, store no capacity; any other number is stored. */
  function CapacityInput(value: string): (r: Option<int>)
    ensures r.None? <==> ParseInt(value).None? || ParseInt(value) == Some(0)
    ensures r.Some? ==> r == ParseInt(value) && r.value != 0
  {
    match ParseInt(value)
    case None => None
    case Some(n) => if n == 0 then None else Some(n)
  }

  /** Typing a number stores it, except 0, which stores nothing; so a stored capacity is
      never 0. */
  lemma CapacityInputOfNumber(n: int)
    ensures CapacityInput(IntToString(n)) == if n == 0 then None else Some(n)
  {
    ParseIntOfIntToString(n, "");
    assert IntToString(n) + "" == IntToString(n);
  }

  /** The form with one field's text replaced. */
  function WithText(f: LocationForm, field: LocationField, value: string): (r: LocationForm)
    requires field != CapacityField
    ensures field == NameField ==> r == f.(name := value)
    ensures field == AddressField ==> r == f.(address := value)
  {
    if field == NameField then f.(name := value) else f.(address := value)
  }

  /** The dialog's state; `submitted` is the latest form handed to `onSubmit`. */
  class Dialog {
    var formData: LocationForm
    var formErrors: Errors
    var submitted: Option<LocationForm>

    /** The fields start from the edited location, with `||` defaults: an empty name, an
        offline room, no capacity for an absent or zero capacity, and an empty address. */
    constructor(editData: Option<Location>)
      ensures editData.None? ==> formData == LocationForm("", OfflineRoom, None, "")
      ensures editData.Some? ==> formData.name == editData.value.name && formData.kind == editData.value.kind
      ensures editData.Some? ==>
        formData.capacity == (if CapacityMissing(editData.value.capacity) then None else editData.value.capacity)
      ensures editData.Some? ==>
        formData.address == (if editData.value.address.Some? then editData.value.address.value else "")
      ensures formErrors == map[] && submitted == None
    {
      if editData.Some? {
        var e := editData.value;
        formData := LocationForm(e.name, e.kind,
                                 if CapacityMissing(e.capacity) then None else e.capacity,
                                 if e.address.Some? then e.address.value else "");
      } else {
        formData := LocationForm("", OfflineRoom, None, "");
      }
      formErrors := map[];
      submitted := None;
    }

    /** `handleSubmit`: with errors they are shown and nothing is handed on; without, the
        form goes to `onSubmit` and the shown errors stay as they were. */
    method HandleSubmit()
      modifies this
      ensures formData == old(formData)
      ensures var errors := ValidateForm(formData);
        if errors != map[] then formErrors == errors && submitted == old(submitted)
        else formErrors == old(formErrors) && submitted == Some(formData)
    {
      var errors := ValidateForm(formData);
      if errors != map[] {
        formErrors := errors;
      } else {
        submitted := Some(formData);
      }
    }

    /** The type radio buttons change only the type. */
    method KindChange(kind: LocationType)
      modifies this
      ensures formData == old(formData).(kind := kind)
      ensures formErrors == old(formErrors) && submitted == old(submitted)
    {
      formData := formData.(kind := kind);
    }

    /** The name or address input: the text is stored and only that field's error is
        cleared. */
    method TextChange(field: LocationField, value: string)
      requires field != CapacityField
      modifies this
      ensures formData == WithText(old(formData), field, value)
      ensures formErrors == old(formErrors) - {field}
      ensures submitted == old(submitted)
    {
      formData := WithText(formData, field, value);
      if field in formErrors {
        formErrors := formErrors - {field};
      }
    }

    /** The capacity input: the parsed number is stored and only the capacity error is
        cleared. */
    method CapacityChange(value: string)
      modifies this
      ensures formData == old(formData).(capacity := CapacityInput(value))
      ensures formErrors == old(formErrors) - {CapacityField}
      ensures submitted == old(submitted)
    {
      formData := formData.(capacity := CapacityInput(value));
      if CapacityField in formErrors {
        formErrors := formErrors - {CapacityField};
      }
    }
  }
}
