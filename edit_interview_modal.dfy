/**
 * The dialog that edits a scheduled interview (src/components/EditInterviewModal.tsx):
 * date, time, duration, type, location and at least one interviewer are required, and
 * interviewers are picked from a searchable dropdown that leaves out those already picked.
 */
module EditInterviewModal {
  import opened Wrappers
  import opened JsStrings
  import opened Lists
  import opened SelectionLists

  /** An interviewer the dropdown offers. */
  datatype Interviewer = Interviewer(id: string, name: string, title: string, department: string)

  /** A picked interviewer as the interview stores it. */
  datatype Picked = Picked(id: string, name: string, title: string)

  datatype InterviewForm = InterviewForm(date: string, time: string, duration: string, kind: string,
                                         location: string, interviewers: seq<Picked>)

  datatype FormField = DateField | TimeField | DurationField | TypeField | LocationField | InterviewersField

  type Errors = map<FormField, string>

  function PickedId(p: Picked): string { p.id }

  function RequiredMessage(field: FormField): string {
    match field
    case DateField => "请选择面试日期"
    case TimeField => "请选择面试时间"
    case DurationField => "请选择面试时长"
    case TypeField => "请选择面试类型"
    case LocationField => "请输入面试地点"
    case InterviewersField => "请选择面试官"
  }

  /** Whether `handleSubmit` finds the field missing: an empty text, or no interviewer. */
  predicate Missing(f: InterviewForm, field: FormField) {
    match field
    case DateField => f.date == ""
    case TimeField => f.time == ""
    case DurationField => f.duration == ""
    case TypeField => f.kind == ""
    case LocationField => f.location == ""
    case InterviewersField => |f.interviewers| == 0
  }

  const AllFields: set<FormField> := {DateField, TimeField, DurationField, TypeField, LocationField, InterviewersField}

  lemma EveryFieldListed(field: FormField)
    ensures field in AllFields
  {
    match field
    case DateField => case TimeField => case DurationField =>
    case TypeField => case LocationField => case InterviewersField =>
  }

  /** `handleSubmit`'s six checks: exactly the missing fields get their message. */
  function ValidateForm(f: InterviewForm): (errors: Errors)
    ensures forall field :: field in errors <==> Missing(f, field)
    ensures forall field :: field in errors ==> errors[field] == RequiredMessage(field)
  {
    assert forall field :: field in AllFields by {
      forall field: FormField ensures field in AllFields {
        EveryFieldListed(field);
      }
    }
    map field | field in AllFields && Missing(f, field) :: RequiredMessage(field)
  }

  /** The form passes exactly when every text is given and an interviewer is picked. */
  lemma ValidFormIff(f: InterviewForm)
    ensures ValidateForm(f) == map[] <==>
      && f.date != "" && f.time != "" && f.duration != "" && f.kind != "" && f.location != ""
      && |f.interviewers| > 0
  {
    var errors := ValidateForm(f);
    if errors == map[] {
      assert DateField !in errors && TimeField !in errors && DurationField !in errors;
      assert TypeField !in errors && LocationField !in errors && InterviewersField !in errors;
    } else {
      var k :| k in errors;
    }
  }

  /** The search matches the name, the title or the department, ignoring case. */
  predicate MatchesSearch(i: Interviewer, search: string) {
    || IncludesIgnoringCase(i.name, search)
    || IncludesIgnoringCase(i.title, search)
    || IncludesIgnoringCase(i.department, search)
  }

  /** `filteredInterviewers`: the interviewers that match the search and whose id is not
      among the picked ones, in list order. */
  function FilteredInterviewers(pool: seq<Interviewer>, search: string, picked: seq<Picked>): (r: seq<Interviewer>)
    ensures forall i :: 0 <= i < |r| ==> r[i] in pool && MatchesSearch(r[i], search) && !HasKey(picked, PickedId, r[i].id)
    ensures forall i :: 0 <= i < |pool| ==>
      (MatchesSearch(pool[i], search) && !HasKey(picked, PickedId, pool[i].id) ==> pool[i] in r)
    ensures IsSubsequence(r, pool)
  {
    var offered := (i: Interviewer) => MatchesSearch(i, search) && !HasKey(picked, PickedId, i.id);
    FilterIsSubsequence(pool, offered);
    Filter(pool, offered)
  }

  /** The entry `handleInterviewerSelect` appends. */
  function Entry(i: Interviewer): (r: Picked)
    ensures PickedId(r) == i.id
  {
    Picked(i.id, i.name, i.title)
  }

  /** Picking from the dropdown never repeats an interviewer: an offered interviewer's id
      is not among the picked ones, so appending its entry keeps the ids unique. */
  lemma PickingKeepsIdsUnique(pool: seq<Interviewer>, search: string, picked: seq<Picked>, i: Interviewer)
    requires UniqueKeys(picked, PickedId) && i in FilteredInterviewers(pool, search, picked)
    ensures !HasKey(picked, PickedId, i.id)
    ensures UniqueKeys(picked + [Entry(i)], PickedId)
  {
    var r := FilteredInterviewers(pool, search, picked);
    var k :| 0 <= k < |r| && r[k] == i;
    AppendKeepsKeysUnique(picked, PickedId, Entry(i));
  }

  /** The dialog's state; `submitted` is the latest form handed to `onSubmit`, and
      `closed` records the `onClose` that follows it. */
  class Modal {
    const pool: seq<Interviewer>
    var formData: InterviewForm
    var formErrors: Errors
    var interviewerSearch: string
    var showInterviewerDropdown: bool
    var submitted: Option<InterviewForm>
    var closed: bool

    /** No interviewer is picked twice. */
    ghost predicate Valid()
      reads this
    {
      UniqueKeys(formData.interviewers, PickedId)
    }

    /** The fields start from the interview being edited. */
    constructor(pool: seq<Interviewer>, interview: InterviewForm)
      ensures this.pool == pool && formData == interview
      ensures formErrors == map[] && interviewerSearch == "" && !showInterviewerDropdown
      ensures submitted == None && !closed
      ensures UniqueKeys(interview.interviewers, PickedId) ==> Valid()
    {
      this.pool := pool;
      formData := interview;
      formErrors := map[];
      interviewerSearch := "";
      showInterviewerDropdown := false;
      submitted := None;
      closed := false;
    }

    /** The dropdown's entries. */
    function Offered(): seq<Interviewer>
      reads this
    {
      FilteredInterviewers(pool, interviewerSearch, formData.interviewers)
    }

    /** `handleInterviewerSelect` on an entry of the dropdown: the interviewer goes at the
        end of the list, the search empties, the dropdown closes and the interviewers
        error is cleared. No interviewer ends up picked twice. */
    method HandleInterviewerSelect(i: Interviewer)
      requires Valid() && i in Offered()
      modifies this
      ensures Valid()
      ensures formData == old(formData).(interviewers := old(formData).interviewers + [Entry(i)])
      ensures interviewerSearch == "" && !showInterviewerDropdown
      ensures formErrors == old(formErrors) - {InterviewersField}
      ensures submitted == old(submitted) && closed == old(closed)
    {
      PickingKeepsIdsUnique(pool, interviewerSearch, formData.interviewers, i);
      formData := formData.(interviewers := formData.interviewers + [Entry(i)]);
      interviewerSearch := "";
      showInterviewerDropdown := false;
      formErrors := formErrors - {InterviewersField};
    }

    /** `handleInterviewerRemove`: the entries with the id go, the others keep their
        order. */
    method HandleInterviewerRemove(id: string)
      requires Valid()
      modifies this
      ensures Valid()
      ensures formData == old(formData).(interviewers := RemoveKey(old(formData).interviewers, PickedId, id))
      ensures formErrors == old(formErrors) && interviewerSearch == old(interviewerSearch)
      ensures submitted == old(submitted) && closed == old(closed)
      ensures showInterviewerDropdown == old(showInterviewerDropdown)
    {
      RemoveKeepsKeysUnique(formData.interviewers, PickedId, id);
      formData := formData.(interviewers := RemoveKey(formData.interviewers, PickedId, id));
    }

    /** `handleSubmit`: with errors they replace the shown ones; without, the form goes to
        `onSubmit` and the dialog closes. */
    method HandleSubmit()
      modifies this
      ensures formData == old(formData)
      ensures var errors := ValidateForm(formData);
        if errors != map[] then formErrors == errors && submitted == old(submitted) && closed == old(closed)
        else formErrors == old(formErrors) && submitted == Some(formData) && closed
      ensures interviewerSearch == old(interviewerSearch) && showInterviewerDropdown == old(showInterviewerDropdown)
    {
      var errors := ValidateForm(formData);
      if errors != map[] {
        formErrors := errors;
        return;
      }
      submitted := Some(formData);
      closed := true;
    }

    /** The date, time, duration, type and location inputs store their text; these edits
        clear no error. */
    method TextChange(date: string, time: string, duration: string, kind: string, location: string)
      modifies this
      ensures formData == old(formData).(date := date, time := time, duration := duration, kind := kind,
                                         location := location)
      ensures formErrors == old(formErrors) && submitted == old(submitted) && closed == old(closed)
      ensures interviewerSearch == old(interviewerSearch) && showInterviewerDropdown == old(showInterviewerDropdown)
    {
      formData := formData.(date := date, time := time, duration := duration, kind := kind, location := location);
    }

    /** Typing in the interviewer search opens the dropdown. */
    method InterviewerSearchChange(value: string)
      modifies this
      ensures interviewerSearch == value && showInterviewerDropdown
      ensures formData == old(formData) && formErrors == old(formErrors)
      ensures submitted == old(submitted) && closed == old(closed)
    {
      interviewerSearch := value;
      showInterviewerDropdown := true;
    }
  }
}
