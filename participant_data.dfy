/**
 * The experimenter's participant data page: a pseudonymous id kept in session
 * storage (reused when present, drawn at random otherwise), three checks in a
 * fixed order, and a write of the sanitised record under that id followed by
 * navigation to the game.
 */
module ParticipantData {
  import opened Common
  import opened DataForm

  // ---------------------------------------------------------------------------
  // The pseudonymous id
  // ---------------------------------------------------------------------------

  /** Length of a generated id. */
  const IdLength: nat := 28

  /** The 62-character alphabet the id is drawn from: capitals, small letters, digits. */
  const Alphabet: string := "ABCDEFGHIJKLMNOPQRSTUVWXYZabcdefghijklmnopqrstuvwxyz0123456789"

  /** A draw: what `Math.floor(Math.random() * 62)` yields, a position in the alphabet. */
  predicate ValidDraws(draws: seq<nat>) {
    forall k :: 0 <= k < |draws| ==> draws[k] < 62
  }

  /** The id spelled by 28 draws. */
  function GenerateId(draws: seq<nat>): (id: string)
    requires |draws| == IdLength && ValidDraws(draws)
    ensures |id| == IdLength
    ensures forall k :: 0 <= k < |id| ==> id[k] in Alphabet
  {
    seq(IdLength, k requires 0 <= k < IdLength => Alphabet[draws[k]])
  }

  /**
   * The mount effect on session storage: a stored non-empty id is reused;
   * otherwise the generated one is stored and used. Returns the id and the
   * new storage value.
   */
  function ResolvePseudoUID(stored: Option<string>, draws: seq<nat>): (r: (string, Option<string>))
    requires |draws| == IdLength && ValidDraws(draws)
    ensures stored.Some? && stored.value != "" ==> r == (stored.value, stored)
    ensures (stored.None? || stored.value == "") ==> r.0 == GenerateId(draws) && r.1 == Some(r.0)
    ensures r.0 != "" && r.1 == Some(r.0)
  {
    if stored.Some? && stored.value != "" then (stored.value, stored)
    else
      var id := GenerateId(draws);
      (id, Some(id))
  }

  /** A later mount in the same tab keeps the id, whatever it draws. */
  lemma PseudoUIDStable(stored: Option<string>, first: seq<nat>, second: seq<nat>)
    requires |first| == IdLength && ValidDraws(first)
    requires |second| == IdLength && ValidDraws(second)
    ensures var r1 := ResolvePseudoUID(stored, first);
      ResolvePseudoUID(r1.1, second) == r1
  {
  }

  // ---------------------------------------------------------------------------
  // The record and its sanitising
  // ---------------------------------------------------------------------------

  /** The form's record; the birthdate is optional. */
  datatype ParticipantForm = ParticipantForm(
    nickname: string,
    birthdate: Option<Date>,
    location: string,
    gender: string,
    school: string,
    grade: string)

  const InitialForm: ParticipantForm := ParticipantForm("", None, "", "", "", "")

  /** A value of the record sent to the database. */
  datatype JsValue = Str(s: string) | Null | Undefined

  /**
   * The record to send: every form field under its own key, the birthdate as
   * its Hungarian date text with every '/' turned into ". ", or null (`format`
   * stands for `toLocaleDateString('hu-HU', ...)`).
   */
  function Document(f: ParticipantForm, format: Date -> string): map<string, JsValue> {
    map[
      "nickname" := Str(f.nickname),
      "birthdate" := (if f.birthdate.Some? then Str(ReplaceSlashes(format(f.birthdate.value))) else Null),
      "location" := Str(f.location),
      "gender" := Str(f.gender),
      "school" := Str(f.school),
      "grade" := Str(f.grade)]
  }

  /**
   * The record has the six keys and carries the nickname and location as given.
   * The birthdate is null exactly when none was given; otherwise it is a text
   * without '/', equal to the formatted date when that has no '/'.
   */
  lemma DocumentSpec(f: ParticipantForm, format: Date -> string)
    ensures var doc := Document(f, format);
      && doc.Keys == {"nickname", "birthdate", "location", "gender", "school", "grade"}
      && (doc["birthdate"] == Null <==> f.birthdate.None?)
      && (f.birthdate.Some? ==> doc["birthdate"].Str? && '/' !in doc["birthdate"].s)
      && (f.birthdate.Some? && '/' !in format(f.birthdate.value) ==> doc["birthdate"] == Str(format(f.birthdate.value)))
      && doc["nickname"] == Str(f.nickname) && doc["location"] == Str(f.location)
  {
  }

  function SanitizedValue(v: JsValue): JsValue {
    if v == Undefined then Null else v
  }

  /** The record with every undefined value replaced by null. */
  function Sanitized(doc: map<string, JsValue>): map<string, JsValue> {
    map k | k in doc :: SanitizedValue(doc[k])
  }

  /** Sanitising keeps the keys, leaves no undefined value, and changes nothing else. */
  lemma SanitizedSpec(doc: map<string, JsValue>)
    ensures Sanitized(doc).Keys == doc.Keys
    ensures forall k :: k in doc ==> Sanitized(doc)[k] != Undefined
    ensures forall k :: k in doc && doc[k] != Undefined ==> Sanitized(doc)[k] == doc[k]
    ensures forall k :: k in doc && doc[k] == Undefined ==> Sanitized(doc)[k] == Null
  {
  }

  /** Sanitising a sanitised record changes nothing. */
  lemma SanitizedIdempotent(doc: map<string, JsValue>)
    ensures Sanitized(Sanitized(doc)) == Sanitized(doc)
  {
  }

  /** The loop over the record's keys that replaces undefined values by null. */
  method Sanitize(doc: map<string, JsValue>) returns (r: map<string, JsValue>)
    ensures r == Sanitized(doc)
  {
    r := doc;
    var keys := doc.Keys;
    while keys != {}
      invariant keys <= doc.Keys
      invariant r.Keys == doc.Keys
      invariant forall k :: k in doc && k !in keys ==> r[k] == SanitizedValue(doc[k])
      invariant forall k :: k in keys ==> r[k] == doc[k]
      decreases keys
    {
      var k :| k in keys;
      if r[k] == Undefined {
        r := r[k := Null];
      }
      keys := keys - {k};
    }
  }

  // ---------------------------------------------------------------------------
  // Submitting
  // ---------------------------------------------------------------------------

  const NoIdMessage: string := "Egyedi azonosító nem generálódott. Frissítse az oldalt."
  const NameRequired: string := "A név megadása kötelező!"
  const LocationRequired: string := "A lakóhely megadása kötelező!"
  const SaveFailed: string := "Hiba történt a mentés során. Próbálja újra később."
  const Saved: string := "Az adatok sikeresen mentésre kerültek!"
  const GamePath: string := "/experimenter/game"

  /** The first failing check: an id, then a non-blank nickname, then a non-blank location. */
  function Validate(pseudoUID: string, f: ParticipantForm): Option<string> {
    if pseudoUID == "" then Some(NoIdMessage)
    else if Trim(f.nickname) == "" then Some(NameRequired)
    else if Trim(f.location) == "" then Some(LocationRequired)
    else None
  }

  lemma ValidateSpec(pseudoUID: string, f: ParticipantForm)
    ensures Validate(pseudoUID, f) == Some(NoIdMessage) <==> pseudoUID == ""
    ensures Validate(pseudoUID, f) == Some(NameRequired) <==> pseudoUID != "" && AllWhitespace(f.nickname)
    ensures Validate(pseudoUID, f) == Some(LocationRequired) <==>
      pseudoUID != "" && !AllWhitespace(f.nickname) && AllWhitespace(f.location)
    ensures Validate(pseudoUID, f).None? <==>
      pseudoUID != "" && !AllWhitespace(f.nickname) && !AllWhitespace(f.location)
  {
    TrimEmptyIff(f.nickname);
    TrimEmptyIff(f.location);
  }

  datatype Call = SetDoc(id: string, data: map<string, JsValue>) | Navigate(path: string)

  /** The calls made and the messages left by one submission. */
  datatype Outcome = Outcome(calls: seq<Call>, error: Option<string>, success: Option<string>)

  /** handleSubmit as a whole; `writeOk` is the outcome of the database write. */
  function Submission(pseudoUID: string, f: ParticipantForm, format: Date -> string, writeOk: bool): Outcome {
    var problem := Validate(pseudoUID, f);
    if problem.Some? then Outcome([], problem, None)
    else
      var write := SetDoc(pseudoUID, Sanitized(Document(f, format)));
      if writeOk then Outcome([write, Navigate(GamePath)], None, Some(Saved))
      else Outcome([write], Some(SaveFailed), None)
  }

  /**
   * A failed check writes nothing; otherwise the sanitised record is written
   * under the id, and the page moves to the game exactly when the write
   * worked, which is also exactly when no error is left.
   */
  lemma SubmissionSpec(pseudoUID: string, f: ParticipantForm, format: Date -> string, writeOk: bool)
    ensures var o := Submission(pseudoUID, f, format, writeOk);
      && (o.calls == [] <==> Validate(pseudoUID, f).Some?)
      && (o.calls == [] ==> o.error == Validate(pseudoUID, f) && o.success.None?)
      && (o.calls != [] ==> o.calls[0] == SetDoc(pseudoUID, Sanitized(Document(f, format))))
      && (Navigate(GamePath) in o.calls <==> Validate(pseudoUID, f).None? && writeOk)
      && (Navigate(GamePath) in o.calls <==> o.error.None?)
      && (o.success.Some? <==> o.error.None?)
      && (o.calls != [] && !writeOk ==> o.error == Some(SaveFailed))
  {
  }

  /**
   * The written record has every key of the form and no undefined value; its
   * birthdate is null exactly when none was given, and never holds a '/'.
   */
  lemma WrittenRecord(f: ParticipantForm, format: Date -> string)
    ensures var data := Sanitized(Document(f, format));
      && data.Keys == {"nickname", "birthdate", "location", "gender", "school", "grade"}
      && (forall k :: k in data ==> data[k] != Undefined)
      && "birthdate" in data && (data["birthdate"] == Null <==> f.birthdate.None?)
      && (f.birthdate.Some? ==> data["birthdate"].Str? && '/' !in data["birthdate"].s)
      && "nickname" in data && data["nickname"] == Str(f.nickname)
  {
    DocumentSpec(f, format);
    SanitizedSpec(Document(f, format));
  }

  class ParticipantPage {
    var formData: ParticipantForm
    /** The session storage entry "pseudoUID". */
    var storedPseudoUID: Option<string>
    var pseudoUID: string
    var isSubmitting: bool
    var error: Option<string>
    var success: Option<string>
    var log: seq<Call>

    constructor (stored: Option<string>)
      ensures formData == InitialForm && storedPseudoUID == stored && pseudoUID == ""
      ensures !isSubmitting && error == None && success == None && log == []
    {
      formData := InitialForm;
      storedPseudoUID := stored;
      pseudoUID := "";
      isSubmitting, error, success := false, None, None;
      log := [];
    }

    /** The mount effect: reuse the stored id or store a freshly drawn one. */
    method Mount(draws: seq<nat>)
      requires |draws| == IdLength && ValidDraws(draws)
      modifies this`storedPseudoUID, this`pseudoUID
      ensures (pseudoUID, storedPseudoUID) == ResolvePseudoUID(old(storedPseudoUID), draws)
    {
      var uid := storedPseudoUID;
      if uid.None? || uid.value == "" {
        var id := GenerateId(draws);
        uid := Some(id);
        storedPseudoUID := uid;
      }
      pseudoUID := uid.value;
    }

    method FormDataChanged(f: ParticipantForm)
      modifies this`formData
      ensures formData == f
    {
      formData := f;
    }

    /**
     * handleSubmit: messages are cleared, the checks run in order, the
     * sanitised record is written, and only a successful write moves on to the
     * game; submitting ends on every path.
     */
    method HandleSubmit(format: Date -> string, writeOk: bool)
      modifies this`isSubmitting, this`error, this`success, this`log
      ensures var o := Submission(old(pseudoUID), old(formData), format, writeOk);
        && !isSubmitting && log == old(log) + o.calls && error == o.error && success == o.success
    {
      var problem := Validate(pseudoUID, formData);
      isSubmitting := true;
      error := None;
      success := None;
      if problem.Some? {
        assert Submission(pseudoUID, formData, format, writeOk) == Outcome([], problem, None);
        error := problem;
        isSubmitting := false;
        return;
      }
      var data := Sanitize(Document(formData, format));
      var calls := [SetDoc(pseudoUID, data)];
      if writeOk {
        success := Some(Saved);
        calls := calls + [Navigate(GamePath)];
      } else {
        error := Some(SaveFailed);
      }
      assert Submission(pseudoUID, formData, format, writeOk) == Outcome(calls, error, success);
      log := log + calls;
      isSubmitting := false;
    }
  }
}
