/**
 * The registration page: the completeness check that enables the submit
 * button, the privacy-policy checkbox that can only be ticked after the policy
 * was opened, the prompt shown for an early tick, and the submission, whose
 * backend steps are given as outcomes.
 */
module Register {
  import opened Common
  import opened DataForm

  const EmailInUseCode: string := "auth/email-already-in-use"
  const EmailInUseMessage: string := "Ez az e-mail cím már használatban van"
  const GenericMessage: string := "Hiba történt a regisztráció során. Próbálja újra később."
  const EmailRequiredMessage: string := "Kérjük, hogy adja meg az e-mail címét."
  const PasswordRequiredMessage: string := "Kérjük, adjon meg egy jelszót"
  const PasswordLengthMessage: string := "A jelszó legalább 6 karakterből álljon"
  const MinPasswordLength: nat := 6
  /** How long the check prompt stays after the last early tick, in milliseconds. */
  const PromptMs: nat := 2000

  /** isFormIncomplete: some required value is empty, the grade of a school child is missing, or the box is unticked. */
  predicate IsFormIncomplete(d: FormData, isChecked: bool, email: string, password: string) {
    || d.nickname == "" || !d.hasBirthdate || d.location == "" || d.gender == "" || d.school == ""
    || (d.school == SchoolChild && d.grade == "")
    || !isChecked || email == "" || password == ""
  }

  /** An input of the data form that empties one of the entries the check requires. */
  predicate ClearsRequired(input: Input) {
    input == SetNickname("") || input == ClearBirthdate || input == SetLocation("")
    || input == SetGender("") || input == SetSchool("")
  }

  /**
   * From a complete form, one input of the data form disables the submit
   * button exactly when it empties a required entry or leaves a school child
   * without a grade; the checkbox and the credentials are untouched by it.
   */
  lemma InputKeepsCompleteness(d: FormData, input: Input, isChecked: bool, email: string, password: string)
    requires !IsFormIncomplete(d, isChecked, email, password)
    ensures var r := Apply(d, input);
      IsFormIncomplete(r, isChecked, email, password) <==>
        ClearsRequired(input) || (r.school == SchoolChild && r.grade == "")
  {
    var r := Apply(d, input);
    assert Changed(d, r) <= {Target(input)};
    if Target(input) != Nickname { assert r.nickname == d.nickname; }
    if Target(input) != Birthdate { assert r.hasBirthdate == d.hasBirthdate; }
    if Target(input) != Location { assert r.location == d.location; }
    if Target(input) != Gender { assert r.gender == d.gender; }
    if Target(input) != School { assert r.school == d.school; }
  }

  /** Whatever else is filled, emptying a required entry disables the submit button. */
  lemma ClearingDisablesSubmit(d: FormData, input: Input, isChecked: bool, email: string, password: string)
    ensures ClearsRequired(input) ==> IsFormIncomplete(Apply(d, input), isChecked, email, password)
  {
  }

  /** The page opens with the submit button disabled. */
  lemma StartsIncomplete(isChecked: bool, email: string, password: string)
    ensures IsFormIncomplete(InitialFormData, isChecked, email, password)
  {
  }

  /** The form library's checks before submission: the first failing rule of each input. */
  function FieldErrors(email: string, password: string): (errors: seq<string>)
    ensures errors == [] <==> email != "" && |password| >= MinPasswordLength
    ensures password != "" && |password| < MinPasswordLength ==> PasswordLengthMessage in errors
  {
    (if email == "" then [EmailRequiredMessage] else [])
    + (if password == "" then [PasswordRequiredMessage]
       else if |password| < MinPasswordLength then [PasswordLengthMessage]
       else [])
  }

  /** The message for a failed registration: one specific code, everything else generic. */
  function ErrorMessage(code: Option<string>): (m: string)
    ensures m == EmailInUseMessage <==> code == Some(EmailInUseCode)
    ensures m == GenericMessage <==> code != Some(EmailInUseCode)
  {
    if code == Some(EmailInUseCode) then EmailInUseMessage else GenericMessage
  }

  /** What the account creation returned. */
  datatype CreateResult = Created(uid: string) | NoUser | CreateFailed(code: string)

  /** Requests to the authentication service, the database and the router. */
  datatype Call =
    | CreateUser(email: string, password: string, displayName: string)
    /** The record written: the form's entries, with the birthdate replaced by its text (None for null). */
    | WriteUserDoc(uid: string, data: FormData, birthdate: Option<string>)
    | UpdateDisplayName(uid: string, name: string)
    | GoTo(path: string)

  /**
   * The birthdate text written to the user document: the Hungarian date
   * format with any '/' turned into ". ", or null without a birthdate
   * (`format` stands for `toLocaleDateString('hu-HU', ...)`).
   */
  function WrittenBirthdate(d: FormData, format: Date -> string): (b: Option<string>)
    ensures b.None? <==> !d.hasBirthdate
    ensures b.Some? ==> '/' !in b.value
    ensures d.hasBirthdate && '/' !in format(d.birthdate) ==> b == Some(format(d.birthdate))
  {
    if d.hasBirthdate then Some(ReplaceSlashes(format(d.birthdate))) else None
  }

  /**
   * The rest of a submission after the account request: the user document is
   * written, then the display name set, then the success page opened; the
   * first failure stops the chain and sets the error (`docError`, `nameError`
   * are the failure codes of those two steps, None on success).
   */
  function Completion(created: CreateResult, docError: Option<Option<string>>, nameError: Option<Option<string>>,
                      d: FormData, format: Date -> string)
    : (r: (seq<Call>, Option<string>))
    ensures r.1.None? <==> created.Created? && docError.None? && nameError.None?
    ensures GoTo("/register-success") in r.0 <==> r.1.None?
    ensures created.CreateFailed? ==> r == ([], Some(ErrorMessage(Some(created.code))))
    ensures created.NoUser? ==> r == ([], Some(GenericMessage))
    ensures created.Created? ==> |r.0| >= 1 && r.0[0] == WriteUserDoc(created.uid, d, WrittenBirthdate(d, format))
    ensures created.Created? && docError.Some? ==> r == ([WriteUserDoc(created.uid, d, WrittenBirthdate(d, format))], Some(ErrorMessage(docError.value)))
  {
    match created
    case CreateFailed(code) => ([], Some(ErrorMessage(Some(code))))
    case NoUser => ([], Some(ErrorMessage(None)))
    case Created(uid) =>
      var write := WriteUserDoc(uid, d, WrittenBirthdate(d, format));
      if docError.Some? then ([write], Some(ErrorMessage(docError.value)))
      else if nameError.Some? then
        ([write, UpdateDisplayName(uid, d.nickname)], Some(ErrorMessage(nameError.value)))
      else ([write, UpdateDisplayName(uid, d.nickname), GoTo("/register-success")], None)
  }

  /** On the page, the submit button can only be enabled once the privacy policy was opened. */
  lemma SubmitNeedsPolicyRead(page: RegisterPage, email: string, password: string)
    requires page.Valid()
    ensures !IsFormIncomplete(page.formData, page.isChecked, email, password) ==> page.hasReadPrivacyPolicy
  {
  }

  class RegisterPage {
    var formData: FormData
    var hasReadPrivacyPolicy: bool
    var isChecked: bool
    var showCheckPrompt: bool
    /** The id of the prompt timer still pending, if any. */
    var pendingTimer: Option<nat>
    var nextTimer: nat
    var mounted: bool
    var isSubmitting: bool
    var firebaseError: Option<string>
    var log: seq<Call>

    /** The box can only be ticked once the policy was opened; a pending timer has been handed out. */
    predicate Valid()
      reads this
    {
      && (isChecked ==> hasReadPrivacyPolicy)
      && (pendingTimer.Some? ==> pendingTimer.value < nextTimer)
      && (mounted && showCheckPrompt ==> pendingTimer.Some?)
    }

    constructor ()
      ensures Valid()
      ensures formData == InitialFormData && !hasReadPrivacyPolicy && !isChecked && !showCheckPrompt
      ensures pendingTimer == None && nextTimer == 0 && mounted && !isSubmitting && firebaseError == None && log == []
    {
      formData := InitialFormData;
      hasReadPrivacyPolicy, isChecked, showCheckPrompt := false, false, false;
      pendingTimer, nextTimer := None, 0;
      mounted, isSubmitting, firebaseError := true, false, None;
      log := [];
    }

    /** The data form reported a change. */
    method FormDataChanged(d: FormData)
      modifies this`formData
      ensures formData == d
    {
      formData := d;
    }

    /** Opening the privacy policy. */
    method PrivacyPolicyClick()
      requires Valid()
      modifies this`hasReadPrivacyPolicy
      ensures Valid() && hasReadPrivacyPolicy
    {
      hasReadPrivacyPolicy := true;
    }

    /**
     * A click on the box: before the policy was opened it shows the prompt and
     * restarts its timer (the previous timer is cancelled); afterwards it ticks
     * the box. Neither flag is ever cleared.
     */
    method CheckboxClick()
      requires Valid()
      modifies this`isChecked, this`showCheckPrompt, this`pendingTimer, this`nextTimer
      ensures Valid()
      ensures old(isChecked) ==> isChecked
      ensures !old(hasReadPrivacyPolicy) ==>
        isChecked == old(isChecked) && showCheckPrompt && pendingTimer == Some(old(nextTimer)) && nextTimer == old(nextTimer) + 1
      ensures old(hasReadPrivacyPolicy) ==>
        isChecked && showCheckPrompt == old(showCheckPrompt) && pendingTimer == old(pendingTimer) && nextTimer == old(nextTimer)
    {
      if !hasReadPrivacyPolicy {
        showCheckPrompt := true;
        pendingTimer := Some(nextTimer);
        nextTimer := nextTimer + 1;
      } else {
        isChecked := true;
      }
    }

    /** A prompt timer fires: only the timer of the last early tick hides the prompt, cancelled ones do nothing. */
    method TimerFired(id: nat)
      requires Valid()
      modifies this`showCheckPrompt, this`pendingTimer
      ensures Valid()
      ensures old(pendingTimer) == Some(id) ==> !showCheckPrompt && pendingTimer == None
      ensures old(pendingTimer) != Some(id) ==> showCheckPrompt == old(showCheckPrompt) && pendingTimer == old(pendingTimer)
    {
      if pendingTimer == Some(id) {
        showCheckPrompt := false;
        pendingTimer := None;
      }
    }

    /** Unmounting clears the pending timer. */
    method Unmount()
      requires Valid()
      modifies this`mounted, this`pendingTimer
      ensures Valid() && !mounted && pendingTimer == None
    {
      mounted := false;
      pendingTimer := None;
    }

    /** onSubmit up to the account request; nothing happens once unmounted. */
    method SubmitStart(email: string, password: string)
      requires Valid()
      modifies this`isSubmitting, this`firebaseError, this`log
      ensures Valid()
      ensures !mounted ==> isSubmitting == old(isSubmitting) && firebaseError == old(firebaseError) && log == old(log)
      ensures mounted ==>
        isSubmitting && firebaseError == None && log == old(log) + [CreateUser(email, password, Trim(formData.nickname))]
    {
      if !mounted {
        return;
      }
      isSubmitting := true;
      firebaseError := None;
      log := log + [CreateUser(email, password, Trim(formData.nickname))];
    }

    /** The rest of onSubmit; isSubmitting is cleared only if the page is still mounted. */
    method SubmitFinish(created: CreateResult, docError: Option<Option<string>>, nameError: Option<Option<string>>,
                         format: Date -> string)
      requires Valid()
      modifies this`isSubmitting, this`firebaseError, this`log
      ensures Valid()
      ensures var r := Completion(created, docError, nameError, formData, format);
        log == old(log) + r.0 && firebaseError == r.1
      ensures isSubmitting == (old(isSubmitting) && !mounted)
    {
      var r := Completion(created, docError, nameError, formData, format);
      log := log + r.0;
      firebaseError := r.1;
      if mounted {
        isSubmitting := false;
      }
    }
  }
}
