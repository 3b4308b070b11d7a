/**
 * The password change page: three checks in a fixed order, then
 * reauthentication with the current password, then the update; the backend
 * answers are given as outcomes (None for success, the error code otherwise).
 */
module PasswordChange {
  import opened Common

  const NoUserText: string := "Hiba: Nincs bejelentkezett felhasználó."
  const TooShortText: string := "Az új jelszónak legalább 6 karakter hosszúnak kell lennie."
  const MismatchText: string := "A jelszavak nem egyeznek meg."
  const SuccessText: string := "A jelszó sikeresen megváltozott!"
  const GenericText: string := "Hiba történt a jelszó módosításakor."
  const WrongPasswordText: string := "A jelenlegi jelszó helytelen."
  const WeakPasswordText: string := "Az új jelszó túl gyenge."
  const RecentLoginText: string := "Bejelentkezés szükséges a jelszó módosításához."

  datatype Message = Message(text: string, isError: bool)

  /** The signed-in user; an empty email counts as none. */
  datatype User = User(uid: string, email: string)

  /** The first failing check, in order: a user with an email, a new password of 6 or more, a matching confirmation. */
  function Validate(user: Option<User>, newPassword: string, confirmPassword: string): (r: Option<string>)
    ensures r.None? <==> user.Some? && user.value.email != "" && |newPassword| >= 6 && newPassword == confirmPassword
    ensures (user.None? || user.value.email == "") ==> r == Some(NoUserText)
    ensures user.Some? && user.value.email != "" && |newPassword| < 6 ==> r == Some(TooShortText)
    ensures r == Some(MismatchText) <==>
      user.Some? && user.value.email != "" && |newPassword| >= 6 && newPassword != confirmPassword
  {
    if user.None? || user.value.email == "" then Some(NoUserText)
    else if |newPassword| < 6 then Some(TooShortText)
    else if newPassword != confirmPassword then Some(MismatchText)
    else None
  }

  /** The message for a failed reauthentication or update: three known codes, everything else generic. */
  function ErrorText(code: string): (t: string)
    ensures code == "auth/wrong-password" <==> t == WrongPasswordText
    ensures code == "auth/weak-password" <==> t == WeakPasswordText
    ensures code == "auth/requires-recent-login" <==> t == RecentLoginText
    ensures code !in {"auth/wrong-password", "auth/weak-password", "auth/requires-recent-login"} <==> t == GenericText
  {
    if code == "auth/requires-recent-login" then RecentLoginText
    else if code == "auth/weak-password" then WeakPasswordText
    else if code == "auth/wrong-password" then WrongPasswordText
    else GenericText
  }

  datatype Call = Reauthenticate(email: string, password: string) | UpdatePassword(password: string)

  /**
   * The whole submission: the calls made and the message left. Every check
   * returns before any call; the update follows a successful reauthentication
   * only; success is reported only after both.
   */
  function Submission(user: Option<User>, currentPassword: string, newPassword: string, confirmPassword: string,
                      reauthError: Option<string>, updateError: Option<string>): (r: (seq<Call>, Message))
    ensures Validate(user, newPassword, confirmPassword).Some? ==>
      r == ([], Message(Validate(user, newPassword, confirmPassword).value, true))
    ensures Validate(user, newPassword, confirmPassword).None? ==>
      |r.0| >= 1 && r.0[0] == Reauthenticate(user.value.email, currentPassword)
    ensures UpdatePassword(newPassword) in r.0 <==> Validate(user, newPassword, confirmPassword).None? && reauthError.None?
    ensures !r.1.isError <==> Validate(user, newPassword, confirmPassword).None? && reauthError.None? && updateError.None?
    ensures !r.1.isError ==> r.1.text == SuccessText
  {
    match Validate(user, newPassword, confirmPassword)
    case Some(text) => ([], Message(text, true))
    case None =>
      var reauth := Reauthenticate(user.value.email, currentPassword);
      if reauthError.Some? then ([reauth], Message(ErrorText(reauthError.value), true))
      else if updateError.Some? then ([reauth, UpdatePassword(newPassword)], Message(ErrorText(updateError.value), true))
      else ([reauth, UpdatePassword(newPassword)], Message(SuccessText, false))
  }

  class PasswordChangePage {
    var message: Option<Message>
    var isSubmitting: bool
    var log: seq<Call>

    constructor ()
      ensures message == None && !isSubmitting && log == []
    {
      message, isSubmitting, log := None, false, [];
    }

    /**
     * handlePasswordChange up to the reauthentication request: the message is
     * cleared first; a failed check sets its message and stops, otherwise
     * submitting starts and reauthentication is requested.
     */
    method Submit(user: Option<User>, currentPassword: string, newPassword: string, confirmPassword: string)
      returns (proceeding: bool)
      requires !isSubmitting
      modifies this
      ensures proceeding <==> Validate(user, newPassword, confirmPassword).None?
      ensures !proceeding ==>
        message == Some(Message(Validate(user, newPassword, confirmPassword).value, true)) && !isSubmitting && log == old(log)
      ensures proceeding ==>
        message == None && isSubmitting && log == old(log) + [Reauthenticate(user.value.email, currentPassword)]
    {
      message := None;
      if user.None? || user.value.email == "" {
        message := Some(Message(NoUserText, true));
        return false;
      }
      if |newPassword| < 6 {
        message := Some(Message(TooShortText, true));
        return false;
      }
      if newPassword != confirmPassword {
        message := Some(Message(MismatchText, true));
        return false;
      }
      isSubmitting := true;
      log := log + [Reauthenticate(user.value.email, currentPassword)];
      return true;
    }

    /** The rest after reauthentication: the update only if it succeeded, the message, and submitting cleared in any case. */
    method Finish(newPassword: string, reauthError: Option<string>, updateError: Option<string>)
      requires isSubmitting
      modifies this
      ensures !isSubmitting
      ensures reauthError.Some? ==> log == old(log) && message == Some(Message(ErrorText(reauthError.value), true))
      ensures reauthError.None? ==> log == old(log) + [UpdatePassword(newPassword)]
      ensures reauthError.None? && updateError.Some? ==> message == Some(Message(ErrorText(updateError.value), true))
      ensures reauthError.None? && updateError.None? ==> message == Some(Message(SuccessText, false))
    {
      if reauthError.Some? {
        message := Some(Message(ErrorText(reauthError.value), true));
      } else {
        log := log + [UpdatePassword(newPassword)];
        if updateError.Some? {
          message := Some(Message(ErrorText(updateError.value), true));
        } else {
          message := Some(Message(SuccessText, false));
        }
      }
      isSubmitting := false;
    }
  }

  /** Running Submit and then Finish leaves exactly the calls and message of one submission. */
  method SubmitAndFinish(page: PasswordChangePage, user: Option<User>, currentPassword: string, newPassword: string,
                         confirmPassword: string, reauthError: Option<string>, updateError: Option<string>)
    requires !page.isSubmitting
    modifies page
    ensures var r := Submission(user, currentPassword, newPassword, confirmPassword, reauthError, updateError);
      page.log == old(page.log) + r.0 && page.message == Some(r.1) && !page.isSubmitting
  {
    var proceeding := page.Submit(user, currentPassword, newPassword, confirmPassword);
    if proceeding {
      page.Finish(newPassword, reauthError, updateError);
    }
  }
}
