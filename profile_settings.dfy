/**
 * The enterprise user's personal settings (src/pages/enterprise/settings/ProfileSettings.tsx):
 * a profile form and a password form, each with its own error sub-record.
 */
module ProfileSettings {
  import opened Wrappers
  import opened AccountChecks

  datatype Profile = Profile(name: string, email: string, phone: string)

  /** `INITIAL_PROFILE` without the avatar. */
  const InitialProfile := Profile("张三", "zhangsan@example.com", "13800138000")

  /** The screen's state. `profileErrors` and `passwordErrors` are the two sub-records of
      `formErrors`; absent until the first failed submit of their form. */
  class Screen {
    var profile: Profile
    var currentPassword: string
    var newPassword: string
    var confirmPassword: string
    var profileErrors: Option<map<ProfileField, string>>
    var passwordErrors: Option<map<PasswordField, string>>

    constructor()
      ensures profile == InitialProfile
      ensures currentPassword == "" && newPassword == "" && confirmPassword == ""
      ensures profileErrors == None && passwordErrors == None
    {
      profile := InitialProfile;
      currentPassword, newPassword, confirmPassword := "", "", "";
      profileErrors, passwordErrors := None, None;
    }

    /** `handleProfileSubmit`: a failing profile replaces the profile sub-record only;
        `accepted` is the success path, reached exactly when the record is empty. */
    method HandleProfileSubmit() returns (accepted: bool)
      modifies this
      ensures var errors := ProfileErrors(profile.name, profile.email, profile.phone);
        && (accepted <==> errors == map[])
        && profileErrors == (if accepted then old(profileErrors) else Some(errors))
      ensures passwordErrors == old(passwordErrors) && profile == old(profile)
      ensures currentPassword == old(currentPassword) && newPassword == old(newPassword)
      ensures confirmPassword == old(confirmPassword)
    {
      var errors := ProfileErrors(profile.name, profile.email, profile.phone);
      if |errors| > 0 {
        profileErrors := Some(errors);
        return false;
      }
      return true;
    }

    /** `handlePasswordSubmit`: the checks run in order, and a failing change replaces
        the password sub-record only. */
    method HandlePasswordSubmit() returns (accepted: bool)
      modifies this
      ensures var errors := PasswordErrors(currentPassword, newPassword, confirmPassword);
        && (accepted <==> errors == map[])
        && passwordErrors == (if accepted then old(passwordErrors) else Some(errors))
      ensures profileErrors == old(profileErrors) && profile == old(profile)
      ensures currentPassword == old(currentPassword) && newPassword == old(newPassword)
      ensures confirmPassword == old(confirmPassword)
    {
      var errors := CheckPassword(currentPassword, newPassword, confirmPassword);
      if |errors| > 0 {
        passwordErrors := Some(errors);
        return false;
      }
      return true;
    }

    /** The profile inputs store their text; the errors are left as they are. */
    method ProfileChange(name: string, email: string, phone: string)
      modifies this
      ensures profile == Profile(name, email, phone)
      ensures profileErrors == old(profileErrors) && passwordErrors == old(passwordErrors)
      ensures currentPassword == old(currentPassword) && newPassword == old(newPassword)
      ensures confirmPassword == old(confirmPassword)
    {
      profile := Profile(name, email, phone);
    }

    /** The three password inputs store their text; the errors are left as they are. */
    method PasswordChange(current: string, newValue: string, confirm: string)
      modifies this
      ensures currentPassword == current && newPassword == newValue && confirmPassword == confirm
      ensures profileErrors == old(profileErrors) && passwordErrors == old(passwordErrors)
      ensures profile == old(profile)
    {
      currentPassword, newPassword, confirmPassword := current, newValue, confirm;
    }
  }
}
