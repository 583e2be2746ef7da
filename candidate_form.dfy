/**
 * The form that adds a candidate (src/pages/enterprise/CandidateForm.tsx): a name, at
 * least one way of contact and one applied-for position, picked from a searchable
 * dropdown; uploading a resume locks the form while it is uploaded and parsed.
 */
module CandidateForm {
  import opened Wrappers
  import opened JsStrings
  import opened Lists

  /** A position the dropdown offers. */
  datatype Position = Position(id: string, title: string, department: string, level: string)

  /** `ResumeStatus`. */
  datatype ResumeStatus = Idle | Uploading | Parsing

  datatype CandidateField = NameField | ContactField | PositionField

  type Errors = map<CandidateField, string>

  const NameRequired := "请输入姓名"
  const ContactRequired := "邮箱和手机号至少填写一个"
  const PositionRequired := "请选择应聘职位"

  /** `isFormDisabled`: the inputs are locked while a resume is uploaded or parsed. */
  predicate IsFormDisabled(status: ResumeStatus) {
    status == Uploading || status == Parsing
  }

  // ---------------------------------------------------------------------------
  // The position dropdown
  // ---------------------------------------------------------------------------

  /** The search matches the title, the department or the level, ignoring case. */
  predicate PositionMatches(p: Position, positionSearch: string) {
    || IncludesIgnoringCase(p.title, positionSearch)
    || IncludesIgnoringCase(p.department, positionSearch)
    || IncludesIgnoringCase(p.level, positionSearch)
  }

  /** The picked position is never offered again. */
  predicate NotSelected(p: Position, selected: Option<Position>) {
    selected.None? || p.id != selected.value.id
  }

  /** `filteredPositions`: the positions that match the search and are not the one
      already picked, in list order. */
  function FilteredPositions(positions: seq<Position>, positionSearch: string, selected: Option<Position>)
    : (r: seq<Position>)
    ensures forall i :: 0 <= i < |r| ==>
      r[i] in positions && PositionMatches(r[i], positionSearch) && NotSelected(r[i], selected)
    ensures forall i :: 0 <= i < |positions| ==>
      (PositionMatches(positions[i], positionSearch) && NotSelected(positions[i], selected) ==> positions[i] in r)
    ensures IsSubsequence(r, positions)
  {
    var offered := (p: Position) => PositionMatches(p, positionSearch) && NotSelected(p, selected);
    FilterIsSubsequence(positions, offered);
    Filter(positions, offered)
  }

  /** With an empty search every position but the picked one is offered. */
  lemma EmptySearchOffersAllButSelected(positions: seq<Position>, selected: Option<Position>)
    ensures forall i :: 0 <= i < |positions| && NotSelected(positions[i], selected) ==>
      positions[i] in FilteredPositions(positions, "", selected)
    ensures selected.Some? ==> selected.value !in FilteredPositions(positions, "", selected)
  {
    forall i | 0 <= i < |positions| ensures PositionMatches(positions[i], "") {
      EmptyIncludedIgnoringCase(positions[i].title);
    }
  }

  // ---------------------------------------------------------------------------
  // The submit checks
  // ---------------------------------------------------------------------------

  /** The message `handleSubmit` leaves for one field: a name blank after trimming, an
      e-mail and a phone both empty (not trimmed), and no picked position. */
  function FieldError(name: string, email: string, phone: string, selected: Option<Position>,
                      field: CandidateField): Option<string> {
    match field
    case NameField => if IsBlank(name) then Some(NameRequired) else None
    case ContactField => if email == "" && phone == "" then Some(ContactRequired) else None
    case PositionField => if selected.None? then Some(PositionRequired) else None
  }

  const AllFields: set<CandidateField> := {NameField, ContactField, PositionField}

  lemma EveryFieldListed(field: CandidateField)
    ensures field in AllFields
  {
    match field
    case NameField =>
    case ContactField =>
    case PositionField =>
  }

  /** `handleSubmit`'s error record: a message for exactly the fields that have one. */
  function SubmitErrors(name: string, email: string, phone: string, selected: Option<Position>): (errors: Errors)
    ensures forall field :: field in errors <==> FieldError(name, email, phone, selected, field).Some?
    ensures forall field :: field in errors ==> errors[field] == FieldError(name, email, phone, selected, field).value
  {
    assert forall field :: field in AllFields by {
      forall field: CandidateField ensures field in AllFields {
        EveryFieldListed(field);
      }
    }
    map field | field in AllFields && FieldError(name, email, phone, selected, field).Some? ::
      FieldError(name, email, phone, selected, field).value
  }

  /** The form passes exactly when the name has text, an e-mail or a phone number is
      given, and a position is picked. */
  lemma SubmitAcceptedIff(name: string, email: string, phone: string, selected: Option<Position>)
    ensures SubmitErrors(name, email, phone, selected) == map[] <==>
      !IsBlank(name) && (email != "" || phone != "") && selected.Some?
  {
    var errors := SubmitErrors(name, email, phone, selected);
    if errors == map[] {
      assert NameField !in errors && ContactField !in errors && PositionField !in errors;
    } else {
      var k :| k in errors;
      assert FieldError(name, email, phone, selected, k).Some?;
    }
  }

  /** One contact suffices: a phone number alone or an e-mail alone clears the contact
      check. */
  lemma OneContactSuffices(name: string, contact: string, selected: Option<Position>)
    requires contact != ""
    ensures ContactField !in SubmitErrors(name, contact, "", selected)
    ensures ContactField !in SubmitErrors(name, "", contact, selected)
  {
  }

  /** The data a parsed resume fills in. */
  const ParsedName := "张三"
  const ParsedEmail := "zhangsan@example.com"
  const ParsedPhone := "13800138000"

  // ---------------------------------------------------------------------------
  // The form's state
  // ---------------------------------------------------------------------------

  class Form {
    const positions: seq<Position>
    var name: string
    var email: string
    var phone: string
    var selectedPosition: Option<Position>
    var positionSearch: string
    var showPositionDropdown: bool
    var formErrors: Errors
    var resumeStatus: ResumeStatus
    var navigated: bool

    constructor(positions: seq<Position>)
      ensures this.positions == positions
      ensures name == "" && email == "" && phone == "" && selectedPosition == None
      ensures positionSearch == "" && !showPositionDropdown && formErrors == map[]
      ensures resumeStatus == Idle && !navigated
    {
      this.positions := positions;
      name, email, phone := "", "", "";
      selectedPosition := None;
      positionSearch := "";
      showPositionDropdown := false;
      formErrors := map[];
      resumeStatus := Idle;
      navigated := false;
    }

    /** The dropdown's entries. */
    function Offered(): seq<Position>
      reads this
    {
      FilteredPositions(positions, positionSearch, selectedPosition)
    }

    /** `handlePositionSelect`: the position is picked, the search is emptied, the
        dropdown closes and the position error is cleared. */
    method HandlePositionSelect(position: Position)
      modifies this
      ensures selectedPosition == Some(position) && positionSearch == "" && !showPositionDropdown
      ensures formErrors == old(formErrors) - {PositionField}
      ensures name == old(name) && email == old(email) && phone == old(phone)
      ensures resumeStatus == old(resumeStatus) && navigated == old(navigated)
    {
      selectedPosition := Some(position);
      positionSearch := "";
      showPositionDropdown := false;
      formErrors := formErrors - {PositionField};
    }

    /** `handlePositionRemove`: the pick is dropped and the position error is shown at
        once. */
    method HandlePositionRemove()
      modifies this
      ensures selectedPosition == None
      ensures formErrors == old(formErrors)[PositionField := PositionRequired]
      ensures positionSearch == old(positionSearch) && showPositionDropdown == old(showPositionDropdown)
      ensures name == old(name) && email == old(email) && phone == old(phone)
      ensures resumeStatus == old(resumeStatus) && navigated == old(navigated)
    {
      selectedPosition := None;
      formErrors := formErrors[PositionField := PositionRequired];
    }

    /** `handleSubmit`: with errors the whole record is replaced by the new one; without,
        the screen goes to the candidate list. The submit button, like the name, e-mail,
        phone and position-search inputs, is disabled while a resume is being read. */
    method HandleSubmit()
      requires !IsFormDisabled(resumeStatus)
      modifies this
      ensures var errors := SubmitErrors(name, email, phone, selectedPosition);
        if errors != map[] then formErrors == errors && navigated == old(navigated)
        else formErrors == old(formErrors) && navigated
      ensures name == old(name) && email == old(email) && phone == old(phone)
      ensures selectedPosition == old(selectedPosition) && resumeStatus == old(resumeStatus)
      ensures positionSearch == old(positionSearch) && showPositionDropdown == old(showPositionDropdown)
    {
      var errors := SubmitErrors(name, email, phone, selectedPosition);
      if errors != map[] {
        formErrors := errors;
        return;
      }
      navigated := true;
    }

    /** The name input: the text is stored and the name error cleared. */
    method NameChange(value: string)
      requires !IsFormDisabled(resumeStatus)
      modifies this
      ensures name == value && formErrors == old(formErrors) - {NameField}
      ensures email == old(email) && phone == old(phone) && selectedPosition == old(selectedPosition)
      ensures resumeStatus == old(resumeStatus) && navigated == old(navigated)
      ensures positionSearch == old(positionSearch) && showPositionDropdown == old(showPositionDropdown)
    {
      name := value;
      formErrors := formErrors - {NameField};
    }

    /** The e-mail input: the contact error is cleared when the new e-mail or the phone
        number is non-empty, and kept otherwise. */
    method EmailChange(value: string)
      requires !IsFormDisabled(resumeStatus)
      modifies this
      ensures email == value
      ensures formErrors == if value != "" || phone != "" then old(formErrors) - {ContactField} else old(formErrors)
      ensures name == old(name) && phone == old(phone) && selectedPosition == old(selectedPosition)
      ensures resumeStatus == old(resumeStatus) && navigated == old(navigated)
      ensures positionSearch == old(positionSearch) && showPositionDropdown == old(showPositionDropdown)
    {
      email := value;
      if value != "" || phone != "" {
        formErrors := formErrors - {ContactField};
      }
    }

    /** The phone input, the same with the roles swapped. */
    method PhoneChange(value: string)
      requires !IsFormDisabled(resumeStatus)
      modifies this
      ensures phone == value
      ensures formErrors == if value != "" || email != "" then old(formErrors) - {ContactField} else old(formErrors)
      ensures name == old(name) && email == old(email) && selectedPosition == old(selectedPosition)
      ensures resumeStatus == old(resumeStatus) && navigated == old(navigated)
      ensures positionSearch == old(positionSearch) && showPositionDropdown == old(showPositionDropdown)
    {
      phone := value;
      if value != "" || email != "" {
        formErrors := formErrors - {ContactField};
      }
    }

    /** Typing in the position search opens the dropdown. */
    method PositionSearchChange(value: string)
      requires !IsFormDisabled(resumeStatus)
      modifies this
      ensures positionSearch == value && showPositionDropdown
      ensures selectedPosition == old(selectedPosition) && formErrors == old(formErrors)
      ensures name == old(name) && email == old(email) && phone == old(phone)
      ensures resumeStatus == old(resumeStatus) && navigated == old(navigated)
    {
      positionSearch := value;
      showPositionDropdown := true;
    }

    /** `handleResumeUpload`, first step: the form locks while the file is uploaded. */
    method ResumeUploadStart()
      modifies this
      ensures resumeStatus == Uploading && IsFormDisabled(resumeStatus)
      ensures name == old(name) && email == old(email) && phone == old(phone)
      ensures selectedPosition == old(selectedPosition) && formErrors == old(formErrors)
      ensures positionSearch == old(positionSearch) && showPositionDropdown == old(showPositionDropdown) && navigated == old(navigated)
    {
      resumeStatus := Uploading;
    }

    /** The upload's progress reached 100: the file is parsed, still locked. */
    method ResumeUploaded()
      requires resumeStatus == Uploading
      modifies this
      ensures resumeStatus == Parsing && IsFormDisabled(resumeStatus)
      ensures name == old(name) && email == old(email) && phone == old(phone)
      ensures selectedPosition == old(selectedPosition) && formErrors == old(formErrors)
      ensures positionSearch == old(positionSearch) && showPositionDropdown == old(showPositionDropdown) && navigated == old(navigated)
    {
      resumeStatus := Parsing;
    }

    /** Parsing is done: the parsed name, e-mail, phone and the first position are filled
        in and the form unlocks. */
    method ResumeParsed()
      requires resumeStatus == Parsing && |positions| > 0
      modifies this
      ensures resumeStatus == Idle && !IsFormDisabled(resumeStatus)
      ensures name == ParsedName && email == ParsedEmail && phone == ParsedPhone
      ensures selectedPosition == Some(positions[0]) && formErrors == old(formErrors)
      ensures positionSearch == old(positionSearch) && showPositionDropdown == old(showPositionDropdown) && navigated == old(navigated)
    {
      name, email, phone := ParsedName, ParsedEmail, ParsedPhone;
      selectedPosition := Some(positions[0]);
      resumeStatus := Idle;
    }
  }
}
