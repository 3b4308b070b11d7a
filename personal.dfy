/**
 * The personal data page: the stored record is read back with defaults and a
 * repaired birthdate, the form counts as changed when it differs from what was
 * read, and saving checks the nickname and then the location before writing.
 */
module Personal {
  import opened Common
  import opened DataForm
  import Register

  // ---------------------------------------------------------------------------
  // Birthdate repair
  // ---------------------------------------------------------------------------

  /** Replaces every occurrence of one character by another. */
  function MapChar(s: string, from: char, to: char): (r: string)
    ensures |r| == |s|
    ensures forall i :: 0 <= i < |s| ==> r[i] == (if s[i] == from then to else s[i])
  {
    if s == [] then [] else [if s[0] == from then to else s[0]] + MapChar(s[1..], from, to)
  }

  /** Splitting on a character and joining with another replaces that character. */
  lemma {:induction false} JoinSplitMaps(s: string, sep: char, glue: char)
    ensures Join(Split(s, sep), glue) == MapChar(s, sep, glue)
  {
    if s != [] {
      var rest := Split(s[1..], sep);
      JoinSplitMaps(s[1..], sep, glue);
      assert MapChar(s, sep, glue) == [if s[0] == sep then glue else s[0]] + MapChar(s[1..], sep, glue);
      if s[0] == sep {
        assert Split(s, sep) == [[]] + rest;
        assert ([[]] + rest)[1..] == rest;
      } else {
        var r := Split(s, sep);
        assert r == [[s[0]] + rest[0]] + rest[1..];
        if |rest| == 1 {
          assert r == [[s[0]] + rest[0]];
        } else {
          assert r[1..] == rest[1..];
          assert Join(rest, glue) == rest[0] + [glue] + Join(rest[1..], glue);
        }
      }
    }
  }

  /** The stored "YYYY. MM. DD." form made parseable: dots deleted, trimmed, spaces turned into '-'. */
  function RepairBirthdate(stored: string): string {
    Join(Split(Trim(RemoveChar(stored, '.')), ' '), '-')
  }

  /** The repair keeps every character of the trimmed dot-free text, with each space turned into '-'. */
  lemma RepairBirthdateShape(stored: string)
    ensures var t := Trim(RemoveChar(stored, '.')); var r := RepairBirthdate(stored);
      r == MapChar(t, ' ', '-') && '.' !in r && ' ' !in r
  {
    var u := RemoveChar(stored, '.');
    var t := Trim(u);
    JoinSplitMaps(t, ' ', '-');
    TrimChars(u);

  }

  lemma NoDots(s: string)
    requires '.' !in s
    ensures RemoveChar(s, '.') == s
  {
    if s != [] {
      NoDots(s[1..]);
      assert [s[0]] + s[1..] == s;
    }
  }

  /** Replacing a character commutes with concatenation. */
  lemma MapCharAppend(a: string, b: string, from: char, to: char)
    ensures MapChar(a + b, from, to) == MapChar(a, from, to) + MapChar(b, from, to)
  {
  }

  /** Replacing a character that does not occur changes nothing. */
  lemma MapCharAbsent(s: string, from: char, to: char)
    requires from !in s
    ensures MapChar(s, from, to) == s
  {
    var r := MapChar(s, from, to);
    assert forall i :: 0 <= i < |s| ==> r[i] == s[i];
  }

  /** A date written as "Y. M. D." with digit groups Y, M, D. */
  function HungarianDate(y: string, m: string, d: string): string {
    y + ". " + m + ". " + d + "."
  }

  /** Deleting the dots leaves the groups separated by single spaces. */
  lemma HungarianDotsRemoved(y: string, m: string, d: string)
    requires AllDigits(y) && AllDigits(m) && AllDigits(d)
    ensures RemoveChar(HungarianDate(y, m, d), '.') == y + " " + m + " " + d
  {
    NoDots(y);
    NoDots(m);
    NoDots(d);
    assert RemoveChar(". ", '.') == " " by {
      assert ". "[1..] == " ";
      assert " "[1..] == "";
    }
    assert RemoveChar(".", '.') == "" by {
      assert "."[1..] == "";
    }
    RemoveCharAppend(y + ". " + m + ". " + d, ".", '.');
    RemoveCharAppend(y + ". " + m + ". ", d, '.');
    RemoveCharAppend(y + ". " + m, ". ", '.');
    RemoveCharAppend(y + ". ", m, '.');
    RemoveCharAppend(y, ". ", '.');
  }

  /** A string that starts and ends with a digit is left alone by trim. */
  lemma DigitEndsUntrimmed(u: string)
    requires u != [] && IsDigit(u[0]) && IsDigit(u[|u| - 1])
    ensures Trim(u) == u
  {
    TrimUnchanged(u);
  }

  /** Mapping spaces to '-' leaves the digit groups and turns the separators into '-'. */
  lemma HungarianSpacesMapped(y: string, m: string, d: string)
    requires AllDigits(y) && AllDigits(m) && AllDigits(d)
    ensures MapChar(y + " " + m + " " + d, ' ', '-') == y + "-" + m + "-" + d
  {
    MapCharAppend(y + " " + m + " ", d, ' ', '-');
    MapCharAppend(y + " " + m, " ", ' ', '-');
    MapCharAppend(y + " ", m, ' ', '-');
    MapCharAppend(y, " ", ' ', '-');
    MapCharAbsent(y, ' ', '-');
    MapCharAbsent(m, ' ', '-');
    MapCharAbsent(d, ' ', '-');
    assert MapChar(" ", ' ', '-') == "-";
  }

  /** The stored "Y. M. D." form is repaired to "Y-M-D", which the date parser accepts. */
  lemma RepairHungarianDate(y: string, m: string, d: string)
    requires y != [] && m != [] && d != []
    requires AllDigits(y) && AllDigits(m) && AllDigits(d)
    ensures RepairBirthdate(HungarianDate(y, m, d)) == y + "-" + m + "-" + d
  {
    var u := y + " " + m + " " + d;
    HungarianDotsRemoved(y, m, d);
    assert u[0] == y[0] && u[|u| - 1] == d[|d| - 1];
    DigitEndsUntrimmed(u);
    RepairBirthdateShape(HungarianDate(y, m, d));
    HungarianSpacesMapped(y, m, d);
  }

  // ---------------------------------------------------------------------------
  // Reading the stored record
  // ---------------------------------------------------------------------------

  /** The stored user document; None stands for a missing key. */
  datatype StoredDoc = StoredDoc(
    nickname: Option<string>,
    birthdate: Option<string>,
    location: Option<string>,
    gender: Option<string>,
    school: Option<string>,
    grade: Option<string>,
    days: Option<int>,
    dailyCount: Option<int>,
    firstDashboardToday: Option<bool>,
    /** The misspelt key the editable copy reads. */
    firstDashoardToday: Option<bool>)

  /** `value || ''` */
  function OrEmpty(v: Option<string>): string { if v.Some? then v.value else "" }
  /** `value || 0` */
  function OrZero(v: Option<int>): int { if v.Some? then v.value else 0 }
  /** `value || true` */
  function OrTrue(v: Option<bool>): bool { if v.Some? && v.value then true else true }

  /**
   * The birthdate read back: none when absent or empty, otherwise the parse of
   * the repaired string (`parse` stands for the Date constructor and yields
   * None for an invalid date).
   */
  function ParsedBirthdate(stored: Option<string>, parse: string -> Option<Date>): (r: Option<Date>)
    ensures (stored.None? || stored.value == "") ==> r.None?
    ensures stored.Some? && stored.value != "" ==> r == parse(RepairBirthdate(stored.value))
  {
    if stored.None? || stored.value == "" then None else parse(RepairBirthdate(stored.value))
  }

  function WithBirthdate(d: FormData, b: Option<Date>): FormData {
    if b.Some? then d.(birthdate := b.value, hasBirthdate := true) else d.(hasBirthdate := false)
  }

  /** The editable copy of the record, which reads the misspelt key. */
  function EditableCopy(doc: StoredDoc, parse: string -> Option<Date>): (d: FormData)
    ensures d.firstDashboardToday
    ensures d.nickname == OrEmpty(doc.nickname) && d.location == OrEmpty(doc.location)
    ensures d.days == OrZero(doc.days) && d.dailyCount == OrZero(doc.dailyCount)
  {
    WithBirthdate(
      FormData(OrEmpty(doc.nickname), Date(0, 0, 0), false, OrEmpty(doc.location), OrEmpty(doc.gender),
               OrEmpty(doc.school), OrEmpty(doc.grade), OrZero(doc.days), OrZero(doc.dailyCount),
               OrTrue(doc.firstDashoardToday)),
      ParsedBirthdate(doc.birthdate, parse))
  }

  /** The copy kept for comparison, which reads the correctly spelt key. */
  function InitialCopy(doc: StoredDoc, parse: string -> Option<Date>): FormData {
    WithBirthdate(
      FormData(OrEmpty(doc.nickname), Date(0, 0, 0), false, OrEmpty(doc.location), OrEmpty(doc.gender),
               OrEmpty(doc.school), OrEmpty(doc.grade), OrZero(doc.days), OrZero(doc.dailyCount),
               OrTrue(doc.firstDashboardToday)),
      ParsedBirthdate(doc.birthdate, parse))
  }

  /** Because of `|| true` the misspelt key makes no difference: the two copies agree, so a fresh form is unchanged. */
  lemma CopiesAgree(doc: StoredDoc, parse: string -> Option<Date>)
    ensures EditableCopy(doc, parse) == InitialCopy(doc, parse)
    ensures !IsFormChanged(EditableCopy(doc, parse), InitialCopy(doc, parse))
  {
    assert OrTrue(doc.firstDashoardToday) == OrTrue(doc.firstDashboardToday);
  }

  /**
   * The record as `JSON.stringify` sees it: without a birthdate the field is
   * null, whatever date the picker held before it was cleared.
   */
  function Serialized(d: FormData): (s: FormData)
    ensures s.hasBirthdate == d.hasBirthdate
    ensures d.hasBirthdate ==> s == d
    ensures Changed(s, d) <= {Birthdate}
  {
    if d.hasBirthdate then d else d.(birthdate := Date(0, 0, 0))
  }

  /** isFormChanged: the serialised records differ. */
  predicate IsFormChanged(current: FormData, initial: FormData) {
    Serialized(current) != Serialized(initial)
  }

  /** Whether an edit alters what its field shows. */
  predicate AltersShownValue(d: FormData, input: Input) {
    match input
    case SetNickname(v) => v != d.nickname
    case SetGender(v) => v != d.gender
    case SetBirthdate(v) => !d.hasBirthdate || v != d.birthdate
    case ClearBirthdate => d.hasBirthdate
    case SetLocation(v) => v != d.location
    case SetSchool(v) => v != d.school
    case SetGrade(v) => v != d.grade
  }

  /**
   * From an unchanged form, one edit enables saving exactly when it alters what
   * its field shows: retyping the same text or clearing an absent birthdate
   * leaves the save button disabled.
   */
  lemma EditChangesForm(current: FormData, initial: FormData, input: Input)
    requires !IsFormChanged(current, initial)
    ensures IsFormChanged(Apply(current, input), initial) <==> AltersShownValue(current, input)
  {
  }

  /** The edit that puts back what `input`'s field showed in `d`. */
  function Restore(d: FormData, input: Input): Input {
    match input
    case SetNickname(_) => SetNickname(d.nickname)
    case SetGender(_) => SetGender(d.gender)
    case SetBirthdate(_) => if d.hasBirthdate then SetBirthdate(d.birthdate) else ClearBirthdate
    case ClearBirthdate => if d.hasBirthdate then SetBirthdate(d.birthdate) else ClearBirthdate
    case SetLocation(_) => SetLocation(d.location)
    case SetSchool(_) => SetSchool(d.school)
    case SetGrade(_) => SetGrade(d.grade)
  }

  /**
   * Undoing an edit disables saving again, also when a date was picked and then
   * cleared: the cleared record keeps the picked date but serialises as null.
   */
  lemma EditUndone(current: FormData, initial: FormData, input: Input)
    requires !IsFormChanged(current, initial)
    ensures !IsFormChanged(Apply(Apply(current, input), Restore(current, input)), initial)
  {
  }

  // ---------------------------------------------------------------------------
  // Saving
  // ---------------------------------------------------------------------------

  const NameRequired: string := "A név megadása kötelező!"
  const LocationRequired: string := "A lakóhely megadása kötelező!"
  const SaveFailed: string := "Hiba történt a mentés során. Próbálja újra később."
  const Saved: string := "Az adatok sikeresen mentésre kerültek!"

  /** The first failing check: the trimmed nickname, then the trimmed location, must be non-empty. */
  function Validate(d: FormData): Option<string> {
    if Trim(d.nickname) == "" then Some(NameRequired)
    else if Trim(d.location) == "" then Some(LocationRequired)
    else None
  }

  /** A blank nickname is reported first, then a blank location; anything else passes. */
  lemma ValidateSpec(d: FormData)
    ensures Validate(d) == Some(NameRequired) <==> AllWhitespace(d.nickname)
    ensures Validate(d) == Some(LocationRequired) <==> !AllWhitespace(d.nickname) && AllWhitespace(d.location)
    ensures Validate(d).None? <==> !AllWhitespace(d.nickname) && !AllWhitespace(d.location)
  {
    TrimEmptyIff(d.nickname);
    TrimEmptyIff(d.location);
  }

  /** The record written: the form's entries, with the birthdate replaced by its text (None for null). */
  datatype Call = WriteUser(uid: string, data: FormData, birthdate: Option<string>) | UpdateDisplayName(uid: string, name: string)

  /**
   * `birthdate?.toLocaleDateString() || null`: the date in the browser's
   * default format (`format`), or null without a date or when that text is
   * empty.
   */
  function SavedBirthdate(d: FormData, format: Date -> string): (b: Option<string>)
    ensures b.None? <==> !d.hasBirthdate || format(d.birthdate) == ""
    ensures b.Some? ==> b.value == format(d.birthdate)
  {
    if d.hasBirthdate && format(d.birthdate) != "" then Some(format(d.birthdate)) else None
  }

  /** The Hungarian date text holds no '/', so the registration page's replace leaves it alone. */
  lemma HungarianDateHasNoSlash(y: string, m: string, d: string)
    requires AllDigits(y) && AllDigits(m) && AllDigits(d)
    ensures '/' !in HungarianDate(y, m, d)
  {
    var h := HungarianDate(y, m, d);
    forall i | 0 <= i < |h|
      ensures h[i] != '/'
    {
      if i < |y| { assert h[i] == y[i]; }
      else if |y| + 2 <= i < |y| + 2 + |m| { assert h[i] == m[i - |y| - 2]; }
      else if |y| + 4 + |m| <= i < |y| + 4 + |m| + |d| { assert h[i] == d[i - |y| - 4 - |m|]; }
    }
  }

  /**
   * When the browser formats dates the Hungarian way and the date parser reads
   * "Y-M-D" back as the same date, a saved birthdate is read back unchanged on
   * the next visit.
   */
  lemma SavedBirthdateReadsBack(d: FormData, format: Date -> string, parse: string -> Option<Date>,
                                y: string, m: string, dd: string)
    requires d.hasBirthdate && y != [] && m != [] && dd != []
    requires AllDigits(y) && AllDigits(m) && AllDigits(dd)
    requires format(d.birthdate) == HungarianDate(y, m, dd)
    requires parse(y + "-" + m + "-" + dd) == Some(d.birthdate)
    ensures ParsedBirthdate(SavedBirthdate(d, format), parse) == Some(d.birthdate)
  {
    RepairHungarianDate(y, m, dd);
  }

  /**
   * The registration page writes the Hungarian form "Y. M. D.", which this page
   * repairs to "Y-M-D": a registered birthdate is read back as the same date
   * whenever the parser reads "Y-M-D" as that date.
   */
  lemma RegisteredBirthdateReadsBack(d: FormData, format: Date -> string, parse: string -> Option<Date>,
                                     y: string, m: string, dd: string)
    requires d.hasBirthdate && y != [] && m != [] && dd != []
    requires AllDigits(y) && AllDigits(m) && AllDigits(dd)
    requires format(d.birthdate) == HungarianDate(y, m, dd)
    requires parse(y + "-" + m + "-" + dd) == Some(d.birthdate)
    ensures Register.WrittenBirthdate(d, format) == Some(HungarianDate(y, m, dd))
    ensures ParsedBirthdate(Register.WrittenBirthdate(d, format), parse) == Some(d.birthdate)
  {
    HungarianDateHasNoSlash(y, m, dd);
    RepairHungarianDate(y, m, dd);
  }

  /** What one submission does: the backend calls made, the error and success messages left, and whether it saved. */
  datatype Outcome = Outcome(calls: seq<Call>, error: Option<string>, success: Option<string>, saved: bool)

  /**
   * handleSubmit as a whole: a failed check stops before any call; otherwise
   * the record is written and, if that worked, the display name is set to the
   * trimmed nickname (`writeOk`, `profileOk` are the backend outcomes).
   */
  function Submission(d: FormData, uid: string, format: Date -> string, writeOk: bool, profileOk: bool): Outcome {
    var problem := Validate(d);
    var write := WriteUser(uid, d, SavedBirthdate(d, format));
    if problem.Some? then Outcome([], problem, None, false)
    else if !writeOk then Outcome([write], Some(SaveFailed), None, false)
    else if !profileOk then Outcome([write, UpdateDisplayName(uid, Trim(d.nickname))], Some(SaveFailed), None, false)
    else Outcome([write, UpdateDisplayName(uid, Trim(d.nickname))], None, Some(Saved), true)
  }

  /**
   * Nothing is sent unless both names are non-blank; the record goes out first;
   * the display name sent is the nickname without its surrounding whitespace and
   * is never blank; the page reports success exactly when both writes worked,
   * and an error otherwise.
   */
  lemma SubmissionSpec(d: FormData, uid: string, format: Date -> string, writeOk: bool, profileOk: bool)
    ensures var o := Submission(d, uid, format, writeOk, profileOk);
      && (o.calls != [] <==> !AllWhitespace(d.nickname) && !AllWhitespace(d.location))
      && (AllWhitespace(d.nickname) ==> o.error == Some(NameRequired))
      && (!AllWhitespace(d.nickname) && AllWhitespace(d.location) ==> o.error == Some(LocationRequired))
      && (o.calls != [] ==> o.calls[0] == WriteUser(uid, d, SavedBirthdate(d, format)))
      && (UpdateDisplayName(uid, Trim(d.nickname)) in o.calls <==> o.calls != [] && writeOk)
      && (forall c :: c in o.calls && c.UpdateDisplayName? ==> c.name != "" && c.name == Trim(d.nickname))
      && (o.saved <==> o.calls != [] && writeOk && profileOk)
      && (o.saved <==> o.error.None?)
      && (o.success.Some? <==> o.saved)
      && (o.calls != [] && !o.saved ==> o.error == Some(SaveFailed))
  {
    ValidateSpec(d);
  }

  class PersonalPage {
    var formData: FormData
    var initialFormData: FormData
    var isSubmitting: bool
    var error: Option<string>
    var success: Option<string>
    var showStatus: bool
    var log: seq<Call>

    constructor (initial: FormData)
      ensures formData == initial && initialFormData == initial
      ensures !isSubmitting && error == None && success == None && !showStatus && log == []
    {
      formData, initialFormData := initial, initial;
      isSubmitting, error, success, showStatus := false, None, None, false;
      log := [];
    }

    /** The fetch effect found the user's document. */
    method Loaded(doc: StoredDoc, parse: string -> Option<Date>)
      modifies this`formData, this`initialFormData
      ensures formData == EditableCopy(doc, parse) && initialFormData == InitialCopy(doc, parse)
      ensures !IsFormChanged(formData, initialFormData)
    {
      CopiesAgree(doc, parse);
      formData := EditableCopy(doc, parse);
      initialFormData := InitialCopy(doc, parse);
    }

    method Edit(d: FormData)
      modifies this`formData
      ensures formData == d
    {
      formData := d;
    }

    /**
     * handleSubmit: the messages are cleared and the submission runs; its calls
     * are appended to the log, its messages are left on the page, the status is
     * shown only on success, and submitting ends on every path.
     */
    method HandleSubmit(uid: string, format: Date -> string, writeOk: bool, profileOk: bool)
      modifies this`isSubmitting, this`error, this`success, this`showStatus, this`log
      ensures var o := Submission(old(formData), uid, format, writeOk, profileOk);
        && !isSubmitting && log == old(log) + o.calls && error == o.error && success == o.success
        && showStatus == (old(showStatus) || o.saved)
    {
      var o := Submission(formData, uid, format, writeOk, profileOk);
      isSubmitting := true;
      error := None;
      success := None;
      log := log + o.calls;
      error := o.error;
      success := o.success;
      if o.saved {
        showStatus := true;
      }
      isSubmitting := false;
    }

    /** The 2000 ms status timer. */
    method StatusTimerFired()
      modifies this`showStatus
      ensures !showStatus
    {
      showStatus := false;
    }
  }
}
