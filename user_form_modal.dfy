/**
 * The dialog that adds or edits a system user of an enterprise
 * (src/pages/enterprise/settings/UserFormModal.tsx): six required fields, an e-mail
 * pattern and a mainland-China mobile-number pattern, and errors that go away field by
 * field as the user edits.
 */
module UserFormModal {
  import opened Wrappers
  import opened JsStrings

  /** The fields of the form. */
  datatype UserField = Name | Title | Department | Email | Phone | Role

  /** `formData`. */
  datatype UserForm = UserForm(name: string, title: string, department: string, email: string, phone: string, role: string)

  /** The error record: a message for each field that has one. */
  type Errors = map<UserField, string>

  // ---------------------------------------------------------------------------
  // The e-mail pattern /^[^\s@]+@[^\s@]+\.[^\s@]+$/
  // ---------------------------------------------------------------------------

  /** `[^\s@]`. */
  predicate AddressChar(c: char) {
    !IsWhitespace(c) && c != '@'
  }

  /** The e-mail test as the form applies it: the text before the first `@` is not
      empty, there is an `@`, no second one follows, there is no white space at all, and
      the part after the `@` has a `.` with at least one character on either side. */
  predicate EmailPattern(s: string) {
    var local := Before(s, '@');
    && 1 <= |local| < |s|
    && (forall i :: 0 <= i < |s| ==> !IsWhitespace(s[i]))
    && var domain := s[|local| + 1..];
    && '@' !in domain
    && |domain| >= 3 && '.' in domain[1..|domain| - 1]
  }

  /** The regular expression matches `s` with its `@` at `at` and the `.` that separates
      the last two `[^\s@]+` runs at `dot`. */
  ghost predicate EmailMatchAt(s: string, at: int, dot: int) {
    && 0 < at && at + 1 < dot < |s| - 1
    && s[at] == '@' && s[dot] == '.'
    && forall i :: 0 <= i < |s| && i != at ==> AddressChar(s[i])
  }

  /** The language of the regular expression. */
  ghost predicate EmailRegex(s: string) {
    exists at, dot :: EmailMatchAt(s, at, dot)
  }

  /** The form's test accepts exactly the strings the regular expression matches. */
  lemma EmailPatternIsRegex(s: string)
    ensures EmailPattern(s) <==> EmailRegex(s)
  {
    var local := Before(s, '@');
    var at := |local|;
    if EmailPattern(s) {
      var domain := s[at + 1..];
      var j :| 0 <= j < |domain| - 2 && domain[1..|domain| - 1][j] == '.';
      var dot := at + 2 + j;
      assert s[dot] == domain[j + 1];
      forall i | 0 <= i < |s| && i != at ensures AddressChar(s[i]) {
        if i < at {
          assert s[i] == local[i];
        } else {
          assert s[i] == domain[i - at - 1];
        }
      }
      assert EmailMatchAt(s, at, dot);
    }
    if EmailRegex(s) {
      var a, dot :| EmailMatchAt(s, a, dot);
      assert a == at;
      var domain := s[at + 1..];
      forall i | 0 <= i < |domain| ensures domain[i] != '@' {
        assert domain[i] == s[at + 1 + i];
      }
      assert domain[1..|domain| - 1][dot - at - 2] == s[dot];
    }
  }

  /** Leading or trailing white space fails the pattern, because it is applied to the
      text as typed. */
  lemma EmailPatternRejectsPadding(s: string)
    requires s != [] && (IsWhitespace(s[0]) || IsWhitespace(s[|s| - 1]))
    ensures !EmailPattern(s)
  {
  }

  /** The shortest kind of address passes. */
  lemma EmailAccepted()
    ensures EmailPattern("a@b.c")
  {
    EmailPatternIsRegex("a@b.c");
    forall i | 0 <= i < 5 && i != 1 ensures AddressChar("a@b.c"[i]) {
      assert "a@b.c"[i] in "ab.c";
    }
    assert EmailMatchAt("a@b.c", 1, 3);
  }

  /** A domain without a dot fails. */
  lemma EmailWithoutDotRejected()
    ensures !EmailPattern("hr@example")
  {
    assert Before("hr@example", '@') == "hr";
    assert "hr@example"[3..] == "example";
    assert "example"[1..6] == "xampl";
  }

  /** A dot right after the `@` does not count. */
  lemma EmailDotAfterAtRejected()
    ensures !EmailPattern("hr@.com")
  {
    assert Before("hr@.com", '@') == "hr";
    assert "hr@.com"[3..] == ".com";
    assert ".com"[1..3] == "co";
  }

  /** A second `@` fails. */
  lemma EmailTwoAtSignsRejected()
    ensures !EmailPattern("hr@ex@ample.com")
  {
    assert Before("hr@ex@ample.com", '@') == "hr";
    assert "hr@ex@ample.com"[3..][2] == '@';
  }

  // ---------------------------------------------------------------------------
  // The mobile-number pattern /^1[3-9]\d{9}$/
  // ---------------------------------------------------------------------------

  /** Eleven characters: `1`, a digit from 3 to 9, then nine decimal digits. */
  predicate PhonePattern(s: string) {
    && |s| == 11 && s[0] == '1' && '3' <= s[1] <= '9'
    && forall i :: 2 <= i < 11 ==> IsDecimalDigit(s[i])
  }

  /** A number that matches reads as an integer from 13000000000 to 19999999999. */
  lemma PhonePatternValue(s: string)
    requires PhonePattern(s)
    ensures ParseInt(s).Some? && 13000000000 <= ParseInt(s).value <= 19999999999
  {
    PhoneParsesAsDigits(s);
    PhoneDigitsValue(s);
  }

  lemma PhoneParsesAsDigits(s: string)
    requires PhonePattern(s)
    ensures ParseInt(s) == Some(DigitsValue(s, false) as int)
  {
    assert s + [] == s;
    ParseUnsignedOfDigits(s, []);
    ParseIntOfDigitStart(s, DigitsValue(s, false));
  }

  lemma PhoneDigitsValue(s: string)
    requires PhonePattern(s)
    ensures 13000000000 <= DigitsValue(s, false) <= 19999999999
  {
    var head, tail := s[..2], s[2..];
    assert s == head + tail;
    DigitsValueBounds(tail);
    DigitsValueOfConcat(head, tail);
    LeadingPairValue(s[0], s[1]);
    assert head == [s[0], s[1]];
    PowerNine();
  }

  lemma LeadingPairValue(a: char, b: char)
    requires a == '1' && '3' <= b <= '9'
    ensures 13 <= DigitsValue([a, b], false) <= 19
  {
    assert [a, b][..1] == [a] && [a][..0] == [];
    assert DigitsValue([a], false) == DigitsValue([], false) * 10 + DigitValue(a) == 1;
    assert DigitsValue([a, b], false) == DigitsValue([a], false) * 10 + DigitValue(b);
  }

  /** `10^n`. */
  function Power10(n: nat): (r: nat)
    ensures r >= 1
  {
    if n == 0 then 1 else 10 * Power10(n - 1)
  }

  lemma PowerNine()
    ensures Power10(9) == 1000000000
  {
    assert Power10(0) == 1;
    assert Power10(2) == 100;
    assert Power10(4) == 10000;
    assert Power10(6) == 1000000;
    assert Power10(8) == 100000000;
  }

  /** `n` decimal digits stand for a number below `10^n`. */
  lemma {:induction false} DigitsValueBounds(ds: string)
    requires forall i :: 0 <= i < |ds| ==> IsDecimalDigit(ds[i])
    ensures DigitsValue(ds, false) < Power10(|ds|)
    decreases |ds|
  {
    if ds != [] {
      var front := ds[..|ds| - 1];
      DigitsValueBounds(front);
      var v, d := DigitsValue(front, false), DigitValue(ds[|ds| - 1]);
      assert DigitsValue(ds, false) == v * 10 + d;
      assert v * 10 + d <= (Power10(|front|) - 1) * 10 + 9;
    }
  }

  /** The value of digits `a` followed by digits `b`. */
  lemma {:induction false} DigitsValueOfConcat(a: string, b: string)
    requires forall i :: 0 <= i < |a| ==> IsDecimalDigit(a[i])
    requires forall i :: 0 <= i < |b| ==> IsDecimalDigit(b[i])
    ensures DigitsValue(a + b, false) == DigitsValue(a, false) * Power10(|b|) + DigitsValue(b, false)
    decreases |b|
  {
    if b == [] {
      assert a + b == a;
    } else {
      var front, last := b[..|b| - 1], b[|b| - 1];
      assert (a + b)[..|a + b| - 1] == a + front;
      assert (a + b)[|a + b| - 1] == last;
      DigitsValueOfConcat(a, front);
      var x, p, y, d := DigitsValue(a, false), Power10(|front|), DigitsValue(front, false), DigitValue(last);
      assert DigitsValue(a + b, false) == DigitsValue(a + front, false) * 10 + d;
      assert DigitsValue(b, false) == y * 10 + d;
      assert Power10(|b|) == p * 10;
      Distribute(x, p, y);
    }
  }

  lemma Distribute(x: int, p: int, y: int)
    ensures (x * p + y) * 10 == x * (p * 10) + y * 10
  {
  }

  /** Padding and a wrong second digit fail the pattern. */
  lemma PhoneExamples()
    ensures PhonePattern("13812345678")
    ensures !PhonePattern("12812345678")
    ensures !PhonePattern(" 13812345678")
    ensures !PhonePattern("1381234567")
  {
  }

  // ---------------------------------------------------------------------------
  // validateForm and the dialog
  // ---------------------------------------------------------------------------

  /** The message `validateForm` gives one field, if any: every field that is blank once
      trimmed gets its "required" message; a non-blank e-mail or phone that fails its
      pattern gets the "invalid" message. The "required" message wins, and the patterns
      see the text as typed. */
  function FieldError(f: UserForm, field: UserField): (r: Option<string>)
    ensures field == Email ==> (r.Some? <==> IsBlank(f.email) || !EmailPattern(f.email))
    ensures field == Phone ==> (r.Some? <==> IsBlank(f.phone) || !PhonePattern(f.phone))
    ensures field !in {Email, Phone} ==> (r.Some? <==> IsBlank(FieldValue(f, field)))
  {
    match field
    case Name => if IsBlank(f.name) then Some("请输入姓名") else None
    case Title => if IsBlank(f.title) then Some("请输入职位") else None
    case Department => if IsBlank(f.department) then Some("请选择部门") else None
    case Email =>
      if IsBlank(f.email) then Some("请输入邮箱")
      else if !EmailPattern(f.email) then Some("请输入有效的邮箱地址") else None
    case Phone =>
      if IsBlank(f.phone) then Some("请输入手机号")
      else if !PhonePattern(f.phone) then Some("请输入有效的手机号") else None
    case Role => if IsBlank(f.role) then Some("请选择角色") else None
  }

  /** The text of one field. */
  function FieldValue(f: UserForm, field: UserField): string {
    match field
    case Name => f.name
    case Title => f.title
    case Department => f.department
    case Email => f.email
    case Phone => f.phone
    case Role => f.role
  }

  const AllFields: set<UserField> := {Name, Title, Department, Email, Phone, Role}

  /** `validateForm`: the error record holds a message for exactly the fields that have
      one. */
  function ValidateForm(f: UserForm): (errors: Errors)
    ensures forall field :: field in errors <==> FieldError(f, field).Some?
    ensures forall field :: field in errors ==> errors[field] == FieldError(f, field).value
  {
    map field | field in AllFields && FieldError(f, field).Some? :: FieldError(f, field).value
  }

  /** A form passes exactly when every field has text and the e-mail and phone match
      their patterns; a matching e-mail or phone is never blank, so its "required"
      message cannot hide an "invalid" one. */
  lemma ValidFormIff(f: UserForm)
    ensures ValidateForm(f) == map[] <==>
      && !IsBlank(f.name) && !IsBlank(f.title) && !IsBlank(f.department) && !IsBlank(f.role)
      && EmailPattern(f.email) && PhonePattern(f.phone)
    ensures EmailPattern(f.email) ==> !IsBlank(f.email)
    ensures PhonePattern(f.phone) ==> !IsBlank(f.phone)
  {
    NoErrorsIff(f);
    MatchIsNotBlank(f.email);
    MatchIsNotBlank(f.phone);
    if ValidateForm(f) != map[] {
      var k :| FieldError(f, k).Some?;
      assert k in AllFields;
    } else {
      assert FieldError(f, Name).None? && FieldError(f, Title).None? && FieldError(f, Department).None?;
      assert FieldError(f, Role).None? && FieldError(f, Email).None? && FieldError(f, Phone).None?;
    }
  }

  /** The record is empty exactly when no field has a message. */
  lemma NoErrorsIff(f: UserForm)
    ensures ValidateForm(f) == map[] <==> forall field :: FieldError(f, field).None?
  {
    var errors := ValidateForm(f);
    if forall field :: FieldError(f, field).None? {
      assert forall field :: field !in errors;
    } else {
      var k :| FieldError(f, k).Some?;
      assert k in errors;
    }
  }

  /** Text that matches either pattern starts with a character other than white space,
      so it is never blank. */
  lemma MatchIsNotBlank(s: string)
    ensures EmailPattern(s) ==> !IsBlank(s)
    ensures PhonePattern(s) ==> !IsBlank(s)
  {
    BlankIffAllWhitespace(s);
    if EmailPattern(s) || PhonePattern(s) {
      assert !IsWhitespace(s[0]);
    }
  }

  /** `{ ...prev, [field]: value }`: the field takes the value and the other five keep
      theirs. */
  function WithField(f: UserForm, field: UserField, value: string): (r: UserForm)
    ensures FieldValue(r, field) == value
    ensures forall other :: other != field ==> FieldValue(r, other) == FieldValue(f, other)
  {
    match field
    case Name => f.(name := value)
    case Title => f.(title := value)
    case Department => f.(department := value)
    case Email => f.(email := value)
    case Phone => f.(phone := value)
    case Role => f.(role := value)
  }

  /** The dialog's state; `submitted` is the latest form handed to `onSubmit`. */
  class Dialog {
    var formData: UserForm
    var formErrors: Errors
    var submitted: Option<UserForm>

    /** The fields start from the edited user's values, or empty for a new user. */
    constructor(editData: Option<UserForm>)
      ensures formData == (if editData.Some? then editData.value else UserForm("", "", "", "", "", ""))
      ensures formErrors == map[] && submitted == None
    {
      formData := if editData.Some? then editData.value else UserForm("", "", "", "", "", "");
      formErrors := map[];
      submitted := None;
    }

    /** `handleSubmit`: with errors they are shown and nothing is handed on; without,
        the form goes to `onSubmit` and the shown errors stay as they were. */
    method HandleSubmit()
      modifies this
      ensures formData == old(formData)
      ensures var errors := ValidateForm(formData);
        if errors != map[] then formErrors == errors && submitted == old(submitted)
        else formErrors == old(formErrors) && submitted == Some(formData)
    {
      var f := formData;
      var errors := ValidateForm(f);
      if errors != map[] {
        formErrors := errors;
      } else {
        submitted := Some(formData);
      }
    }

    /** A field's `onChange`: the field takes the new text and only its own error is
        cleared. */
    method FieldChange(field: UserField, value: string)
      modifies this
      ensures formData == WithField(old(formData), field, value)
      ensures formErrors == old(formErrors) - {field}
      ensures submitted == old(submitted)
    {
      formData := WithField(formData, field, value);
      if field in formErrors {
        formErrors := formErrors - {field};
      }
    }
  }
}
