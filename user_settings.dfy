/**
 * The administrator's personal settings (src/pages/admin/settings/UserSettings.tsx): the
 * same profile and password forms as the enterprise screen, plus three notification
 * switches.
 */
module UserSettings {
  import opened Wrappers
  import opened AccountChecks

  /** The three notification channels. */
  datatype Channel = EmailChannel | BrowserChannel | MobileChannel

  datatype Notifications = Notifications(email: bool, browser: bool, mobile: bool)

  datatype Profile = Profile(name: string, email: string, phone: string, notifications: Notifications)

  /** `INITIAL_PROFILE` without the avatar: e-mail and browser notifications on, mobile
      off. */
  const InitialProfile := Profile("John Doe", "john.doe@example.com", "13800138000",
                                  Notifications(true, true, false))

  /** `prev.notifications[key]`. */
  function Flag(n: Notifications, key: Channel): bool {
    match key
    case EmailChannel => n.email
    case BrowserChannel => n.browser
    case MobileChannel => n.mobile
  }

  /** `{ ...prev.notifications, [key]: !prev.notifications[key] }`: the switch of `key`
      flips and the other two keep their state. */
  function Toggle(n: Notifications, key: Channel): (r: Notifications)
    ensures Flag(r, key) == !Flag(n, key)
    ensures forall other :: other != key ==> Flag(r, other) == Flag(n, other)
  {
    match key
    case EmailChannel => n.(email := !n.email)
    case BrowserChannel => n.(browser := !n.browser)
    case MobileChannel => n.(mobile := !n.mobile)
  }

  /** Flipping the same switch twice restores the settings; flips of two switches can be
      made in either order. */
  lemma ToggleTwice(n: Notifications, key: Channel, other: Channel)
    ensures Toggle(Toggle(n, key), key) == n
    ensures Toggle(Toggle(n, key), other) == Toggle(Toggle(n, other), key)
  {
  }

  /** The initial switches: e-mail and browser on, mobile off. */
  lemma InitialSwitches()
    ensures Flag(InitialProfile.notifications, EmailChannel) && Flag(InitialProfile.notifications, BrowserChannel)
    ensures !Flag(InitialProfile.notifications, MobileChannel)
  {
  }

  /** The screen's state; the two error sub-records as on the enterprise screen. */
  class Screen {
    var profile: Profile
    var currentPassword: string
    var newPassword: string
    var confirmPassword: string
    var profileErrors: Option<map<ProfileField, string>>
    var passwordErrors: Option<map<PasswordField, string>>

    constructor()
      ensures profile == InitialProfile
      ensures currentPassword == "" && newPassword == "" && confirmPassword == ""
      ensures profileErrors == None && passwordErrors == None
    {
      profile := InitialProfile;
      currentPassword, newPassword, confirmPassword := "", "", "";
      profileErrors, passwordErrors := None, None;
    }

    /** `handleProfileSubmit`: a failing profile replaces the profile sub-record only. */
    method HandleProfileSubmit() returns (accepted: bool)
      modifies this
      ensures var errors := ProfileErrors(profile.name, profile.email, profile.phone);
        && (accepted <==> errors == map[])
        && profileErrors == (if accepted then old(profileErrors) else Some(errors))
      ensures passwordErrors == old(passwordErrors) && profile == old(profile)
      ensures currentPassword == old(currentPassword) && newPassword == old(newPassword)
      ensures confirmPassword == old(confirmPassword)
    {
      var errors := ProfileErrors(profile.name, profile.email, profile.phone);
      if |errors| > 0 {
        profileErrors := Some(errors);
        return false;
      }
      return true;
    }

    /** `handlePasswordSubmit`: a failing change is stored under `password` only. */
    method HandlePasswordSubmit() returns (accepted: bool)
      modifies this
      ensures var errors := PasswordErrors(currentPassword, newPassword, confirmPassword);
        && (accepted <==> errors == map[])
        && passwordErrors == (if accepted then old(passwordErrors) else Some(errors))
      ensures profileErrors == old(profileErrors) && profile == old(profile)
      ensures currentPassword == old(currentPassword) && newPassword == old(newPassword)
      ensures confirmPassword == old(confirmPassword)
    {
      var errors := CheckPassword(currentPassword, newPassword, confirmPassword);
      if |errors| > 0 {
        passwordErrors := Some(errors);
        return false;
      }
      return true;
    }

    /** `handleNotificationChange(key)`: only the switch of `key` flips; the profile's
        texts, the passwords and the errors stay. */
    method HandleNotificationChange(key: Channel)
      modifies this
      ensures profile == old(profile).(notifications := Toggle(old(profile).notifications, key))
      ensures profileErrors == old(profileErrors) && passwordErrors == old(passwordErrors)
      ensures currentPassword == old(currentPassword) && newPassword == old(newPassword)
      ensures confirmPassword == old(confirmPassword)
    {
      profile := profile.(notifications := Toggle(profile.notifications, key));
    }

    /** The profile inputs store their text; the switches and the errors stay. */
    method ProfileChange(name: string, email: string, phone: string)
      modifies this
      ensures profile == old(profile).(name := name, email := email, phone := phone)
      ensures profileErrors == old(profileErrors) && passwordErrors == old(passwordErrors)
      ensures currentPassword == old(currentPassword) && newPassword == old(newPassword)
      ensures confirmPassword == old(confirmPassword)
    {
      profile := profile.(name := name, email := email, phone := phone);
    }

    /** The three password inputs store their text; the errors are left as they are. */
    method PasswordChange(current: string, newValue: string, confirm: string)
      modifies this
      ensures currentPassword == current && newPassword == newValue && confirmPassword == confirm
      ensures profileErrors == old(profileErrors) && passwordErrors == old(passwordErrors)
      ensures profile == old(profile)
    {
      currentPassword, newPassword, confirmPassword := current, newValue, confirm;
    }
  }
}
