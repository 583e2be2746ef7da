/**
 * The checks the two personal-settings screens (src/pages/enterprise/settings/ProfileSettings.tsx
 * and src/pages/admin/settings/UserSettings.tsx) make, word for word the same in both: the
 * profile needs a name, an e-mail and a phone number, and a password change needs the
 * current password, a new one and a matching confirmation.
 */
module AccountChecks {

  datatype ProfileField = NameField | EmailField | PhoneField

  datatype PasswordField = Current | New | Confirm

  const NameRequired := "请输入姓名"
  const EmailRequired := "请输入邮箱"
  const PhoneRequired := "请输入手机号"
  const CurrentRequired := "请输入当前密码"
  const NewRequired := "请输入新密码"
  const ConfirmRequired := "请确认新密码"
  const Mismatch := "两次输入的密码不一致"

  /** The profile's error record: a value is missing only when it is the empty text; no
      trimming is done. */
  function ProfileErrors(name: string, email: string, phone: string): map<ProfileField, string> {
    (if name == "" then map[NameField := NameRequired] else map[])
    + (if email == "" then map[EmailField := EmailRequired] else map[])
    + (if phone == "" then map[PhoneField := PhoneRequired] else map[])
  }

  /** The profile passes exactly when none of its three values is empty; a value of
      spaces only is accepted. */
  lemma ProfileAcceptedIff(name: string, email: string, phone: string)
    ensures ProfileErrors(name, email, phone) == map[] <==> name != "" && email != "" && phone != ""
    ensures ProfileErrors(" ", email, phone).Keys <= {EmailField, PhoneField}
  {
    if name == "" {
      assert NameField in ProfileErrors(name, email, phone);
    } else if email == "" {
      assert EmailField in ProfileErrors(name, email, phone);
    } else if phone == "" {
      assert PhoneField in ProfileErrors(name, email, phone);
    }
  }

  /** The password error record stated field by field: each empty input is flagged, and
      the confirmation carries the mismatch message whenever the two new passwords differ,
      and the "required" message only when both are empty. */
  function PasswordErrors(current: string, newPassword: string, confirm: string): map<PasswordField, string> {
    (if current == "" then map[Current := CurrentRequired] else map[])
    + (if newPassword == "" then map[New := NewRequired] else map[])
    + (if newPassword != confirm then map[Confirm := Mismatch]
       else if confirm == "" then map[Confirm := ConfirmRequired]
       else map[])
  }

  /** `handlePasswordSubmit`'s checks in their order: each `if` may set its field, and the
      mismatch check comes last, so it overwrites the confirmation's "required" message. */
  method CheckPassword(current: string, newPassword: string, confirm: string)
    returns (errors: map<PasswordField, string>)
    ensures errors == PasswordErrors(current, newPassword, confirm)
  {
    errors := map[];
    if current == "" {
      errors := errors[Current := CurrentRequired];
    }
    if newPassword == "" {
      errors := errors[New := NewRequired];
    }
    if confirm == "" {
      errors := errors[Confirm := ConfirmRequired];
    }
    if newPassword != confirm {
      errors := errors[Confirm := Mismatch];
    }
  }

  /** A password change passes exactly when the current and the new password are given
      and the confirmation repeats the new one. */
  lemma PasswordAcceptedIff(current: string, newPassword: string, confirm: string)
    ensures PasswordErrors(current, newPassword, confirm) == map[] <==>
      current != "" && newPassword != "" && newPassword == confirm
  {
    var errors := PasswordErrors(current, newPassword, confirm);
    if current == "" {
      assert Current in errors;
    } else if newPassword == "" {
      assert New in errors;
    } else if newPassword != confirm {
      assert Confirm in errors;
    }
  }

  /** The confirmation's message: it is flagged when empty or different from the new
      password, and a difference wins over emptiness. With a new password typed and the
      confirmation left empty, the message is the mismatch, not "请确认新密码". */
  lemma ConfirmMessage(current: string, newPassword: string, confirm: string)
    ensures Confirm in PasswordErrors(current, newPassword, confirm) <==> confirm == "" || newPassword != confirm
    ensures Confirm in PasswordErrors(current, newPassword, confirm) ==>
      PasswordErrors(current, newPassword, confirm)[Confirm] ==
        (if newPassword != confirm then Mismatch else ConfirmRequired)
    ensures newPassword != "" ==> PasswordErrors(current, newPassword, "")[Confirm] == Mismatch
    ensures PasswordErrors(current, "", "")[Confirm] == ConfirmRequired
  {
  }
}
