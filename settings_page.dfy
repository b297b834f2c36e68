/** The account settings page: the username update and the password change with
    its validation chain and the clearing of the three password fields. */
module SettingsPage {
  import opened Wrappers
  import opened Text
  import opened Credentials

  const FillInPasswords: Toast := Toast("Error", "Please fill in all password fields", true)
  const Mismatch: Toast := Toast("Error", "New passwords do not match", true)
  const ShortPassword: Toast := Toast("Error", "Password must be at least 6 characters", true)
  const PasswordChanged: Toast := Toast("Success", "Password changed successfully", false)
  const PasswordFailed: Toast := Toast("Error", "Failed to change password", true)
  const UsernameUpdated: Toast := Toast("Success", "Username updated successfully", false)
  const UsernameFailed: Toast := Toast("Error", "Failed to update username", true)

  /** The toast of the first failed password check, or `None` when the new
      password is sent: blank fields, then the confirmation, then the length. */
  function FirstProblem(current: string, newPassword: string, confirm: string): (r: Option<Toast>)
    ensures r.None? <==> current != [] && newPassword == confirm && JsLength(newPassword) >= MinPasswordLength
    ensures r == Some(FillInPasswords) <==> current == [] || newPassword == [] || confirm == []
    ensures r == Some(Mismatch) <==> current != [] && newPassword != [] && confirm != [] && newPassword != confirm
    ensures r == Some(ShortPassword) <==>
              current != [] && newPassword != [] && newPassword == confirm && JsLength(newPassword) < MinPasswordLength
  {
    if newPassword == [] || confirm == [] || current == [] then Some(FillInPasswords)
    else if newPassword != confirm then Some(Mismatch)
    else if JsLength(newPassword) < MinPasswordLength then Some(ShortPassword)
    else None
  }

  /** The confirmation is compared before the length is checked, the reverse of
      the reset page: a short pair that differs is reported as a mismatch. */
  lemma MismatchBeforeLength(current: string, newPassword: string, confirm: string)
    requires current != [] && newPassword != [] && confirm != [] && newPassword != confirm
    requires JsLength(newPassword) < MinPasswordLength
    ensures FirstProblem(current, newPassword, confirm) == Some(Mismatch)
  {
  }

  /** The settings page's state. */
  class SettingsForm {
    var username: string
    var currentPassword: string
    var newPassword: string
    var confirmPassword: string
    var loading: bool

    /** The form opens with the profile's username, or empty without a profile. */
    constructor (profileUsername: Option<string>)
      ensures username == (if Truthy(profileUsername) then profileUsername.value else [])
      ensures currentPassword == [] && newPassword == [] && confirmPassword == [] && !loading
    {
      username := if Truthy(profileUsername) then profileUsername.value else [];
      currentPassword := [];
      newPassword := [];
      confirmPassword := [];
      loading := false;
    }

    /** `handleUpdateUsername`: with a profile and a non-blank name, sends the
        trimmed name for the profile's id; `update` is how the awaited update and
        profile refresh end. Without either it does nothing at all. */
    method HandleUpdateUsername(profileId: Option<string>, update: Call)
      returns (sent: Option<(string, string)>, toast: Option<Toast>)
      modifies this
      ensures sent.Some? <==> profileId.Some? && Trim(username) != []
      ensures sent.Some? ==> sent.value == (profileId.value, Trim(username)) && !loading
      ensures sent.None? ==> toast == None && loading == old(loading)
      ensures sent.Some? ==> toast == Some(if update.Succeeds? then UsernameUpdated else UsernameFailed)
      ensures username == old(username) && currentPassword == old(currentPassword)
      ensures newPassword == old(newPassword) && confirmPassword == old(confirmPassword)
    {
      if profileId.None? || Trim(username) == [] {
        return None, None;
      }
      loading := true;
      sent := Some((profileId.value, Trim(username)));
      toast := Some(if update.Succeeds? then UsernameUpdated else UsernameFailed);
      loading := false;
    }

    /** `handleChangePassword`: only the new password is sent (the current one is
        required but neither checked nor sent); the three fields are cleared only
        after a successful change. */
    method HandleChangePassword(update: Call) returns (sent: Option<string>, toast: Toast)
      modifies this
      ensures var problem := FirstProblem(old(currentPassword), old(newPassword), old(confirmPassword));
              && (sent.Some? <==> problem.None?)
              && (problem.Some? ==> toast == problem.value && loading == old(loading))
      ensures sent.Some? ==> sent.value == old(newPassword) && !loading
      ensures sent.Some? && update.Succeeds? ==>
                toast == PasswordChanged && currentPassword == [] && newPassword == [] && confirmPassword == []
      ensures !(sent.Some? && update.Succeeds?) ==>
                currentPassword == old(currentPassword) && newPassword == old(newPassword)
                && confirmPassword == old(confirmPassword)
      ensures sent.Some? && !update.Succeeds? ==> toast == PasswordFailed
      ensures username == old(username)
    {
      var problem := FirstProblem(currentPassword, newPassword, confirmPassword);
      if problem.Some? {
        return None, problem.value;
      }
      loading := true;
      sent := Some(newPassword);
      if update.Succeeds? {
        toast := PasswordChanged;
        currentPassword := [];
        newPassword := [];
        confirmPassword := [];
      } else {
        toast := PasswordFailed;
      }
      loading := false;
    }
  }
}
