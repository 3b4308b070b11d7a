/**
 * The experimenter's game screen, after practice. It reads the participant's
 * pseudonymous id from session storage, requests the introduction line plus
 * the first concept once per visit and only the concept clip afterwards, the
 * closing line at ten answers, marks the fields answered before the questions
 * were shown, and follows the same feedback schedule as the dashboard game.
 *
 * The effects are pure step functions; the `ExperimenterScreen` class holds
 * the refs and state and its methods are proved against those functions.
 */
module ExperimenterGame {
  import opened Common
  import opened Requests
  import DashboardGame
  import ParticipantData

  // ---------------------------------------------------------------------------
  // The pseudonymous id
  // ---------------------------------------------------------------------------

  const LandingPath: string := "/experimenter"

  /** The mount effect: a non-empty stored id is used, otherwise the page returns to the landing page. */
  function FetchPseudoUID(stored: Option<string>): (r: (string, seq<Call>))
    ensures r.1 == [] <==> stored.Some? && stored.value != ""
    ensures r.1 == [] ==> r.0 == stored.value
    ensures r.1 != [] ==> r == ("", [Navigate(LandingPath)])
  {
    if stored.Some? && stored.value != "" then (stored.value, []) else ("", [Navigate(LandingPath)])
  }

  /**
   * After the participant data page has run its mount effect, the game page
   * finds the same id and stays, whatever was stored or drawn before.
   */
  lemma GameFindsParticipantId(stored: Option<string>, draws: seq<nat>)
    requires |draws| == ParticipantData.IdLength && ParticipantData.ValidDraws(draws)
    ensures var r := ParticipantData.ResolvePseudoUID(stored, draws);
      FetchPseudoUID(r.1) == (r.0, [])
  {
  }

  // ---------------------------------------------------------------------------
  // The closing line
  // ---------------------------------------------------------------------------

  /** The experiment-end effect: the closing line once practice is done and ten concepts are answered. */
  function EndLine(practice: PracticeValue, answeredToday: int): (c: Option<Call>)
    ensures c.Some? <==> practice == PracticeDone && answeredToday == 10
    ensures c.Some? ==> c.value == PlayGroup("experimentVegen", false)
  {
    if practice != PracticeDone then None
    else if answeredToday == 10 then Some(PlayGroup("experimentVegen", false))
    else None
  }

  // ---------------------------------------------------------------------------
  // Concept audio and the first-concept sequence
  // ---------------------------------------------------------------------------

  /** What the concept effect reads on one run. */
  datatype ConceptView = ConceptView(practice: PracticeValue, conceptId: Option<string>, renderReady: bool, answeredToday: int)

  /** The effect goes past its guards: practice done, a current concept, and the hook ready. */
  predicate ConceptReady(v: ConceptView) {
    v.practice == PracticeDone && v.conceptId.Some? && v.renderReady
  }

  /** The introduction line followed by the concept's own clip. */
  function FirstSequence(id: string): Call {
    PlaySequence([GroupStep("elsoFogalom", false), ConceptStep(id)])
  }

  predicate IsFirstSequence(c: Call) {
    c.PlaySequence? && |c.steps| > 0 && c.steps[0].GroupStep? && c.steps[0].group == "elsoFogalom"
  }

  /** The number of first-concept sequences in a call log. */
  function FirstSequences(log: seq<Call>): (n: nat)
    ensures n <= |log|
  {
    if log == [] then 0
    else (if IsFirstSequence(log[0]) then 1 else 0) + FirstSequences(log[1..])
  }

  lemma {:induction false} FirstSequencesAppend(a: seq<Call>, b: seq<Call>)
    ensures FirstSequences(a + b) == FirstSequences(a) + FirstSequences(b)
  {
    if a == [] {
      assert a + b == b;
    } else {
      assert (a + b)[0] == a[0];
      assert (a + b)[1..] == a[1..] + b;
      FirstSequencesAppend(a[1..], b);
    }
  }

  /**
   * The ref and the request after one run of the concept effect (its 100 ms
   * timer taken as fired): the first concept of the day gets the introduction
   * sequence unless the ref is set, every other concept below ten answered only
   * its own clip.
   */
  function ConceptAudio(playedFirst: bool, v: ConceptView): (res: (bool, Option<Call>))
    ensures res.1.None? <==> !ConceptReady(v) || v.answeredToday >= 10
    ensures ConceptReady(v) && v.answeredToday == 0 && !playedFirst ==>
      res.1 == Some(FirstSequence(v.conceptId.value)) && res.0
    ensures ConceptReady(v) && !(v.answeredToday == 0 && !playedFirst) && v.answeredToday < 10 ==>
      res.1 == Some(PlayConcept(v.conceptId.value))
    ensures !(ConceptReady(v) && v.answeredToday == 0 && !playedFirst) ==> res.0 == playedFirst
  {
    if !ConceptReady(v) then (playedFirst, None)
    else if v.answeredToday == 0 && !playedFirst then (true, Some(FirstSequence(v.conceptId.value)))
    else if v.answeredToday < 10 then (playedFirst, Some(PlayConcept(v.conceptId.value)))
    else (playedFirst, None)
  }

  /** Runs the concept effect over successive runs; returns the final ref and the requests made. */
  function ConceptAudioRun(playedFirst: bool, views: seq<ConceptView>): (bool, seq<Call>)
    decreases |views|
  {
    if views == [] then (playedFirst, [])
    else
      var step := ConceptAudio(playedFirst, views[0]);
      var rest := ConceptAudioRun(step.0, views[1..]);
      (rest.0, (if step.1.Some? then [step.1.value] else []) + rest.1)
  }

  /**
   * Within one visit the first-concept sequence is requested exactly as often
   * as the ref goes from unset to set: at most once, and never once it is set.
   */
  lemma {:induction false} FirstSequenceOncePerVisit(playedFirst: bool, views: seq<ConceptView>)
    decreases |views|
    ensures var r := ConceptAudioRun(playedFirst, views);
      (if playedFirst then 1 else 0) + FirstSequences(r.1) == (if r.0 then 1 else 0)
    ensures FirstSequences(ConceptAudioRun(playedFirst, views).1) <= 1
    ensures playedFirst ==> FirstSequences(ConceptAudioRun(playedFirst, views).1) == 0
  {
    if views != [] {
      var step := ConceptAudio(playedFirst, views[0]);
      var rest := ConceptAudioRun(step.0, views[1..]);
      FirstSequenceOncePerVisit(step.0, views[1..]);
      var head := if step.1.Some? then [step.1.value] else [];
      FirstSequencesAppend(head, rest.1);
      if step.1.Some? {
        assert head[1..] == [];
        assert IsFirstSequence(step.1.value) <==> ConceptReady(views[0]) && views[0].answeredToday == 0 && !playedFirst;
      }
    }
  }

  /** Once ten concepts are answered no concept audio is requested at all. */
  lemma {:induction false} NoConceptAudioAtTen(playedFirst: bool, views: seq<ConceptView>)
    requires forall i :: 0 <= i < |views| ==> views[i].answeredToday >= 10
    decreases |views|
    ensures ConceptAudioRun(playedFirst, views) == (playedFirst, [])
  {
    if views != [] {
      NoConceptAudioAtTen(playedFirst, views[1..]);
      var none: seq<Call> := [];
      assert none + [] == none;
    }
  }

  /** The closing line and a concept clip never come from the same state of the screen. */
  lemma EndLineExcludesConceptAudio(playedFirst: bool, v: ConceptView)
    requires EndLine(v.practice, v.answeredToday).Some?
    ensures ConceptAudio(playedFirst, v).1.None?
  {
  }

  // ---------------------------------------------------------------------------
  // Marking fields answered before the questions
  // ---------------------------------------------------------------------------

  /** The blank braille pattern appended to a marked field. */
  const Blank: char := '⠀'

  /** The field-marking effect: a field equal to a marked value gets the blank appended. */
  function MarkFields(fields: seq<string>, values: set<string>): (r: seq<string>)
    ensures |r| == |fields|
    ensures forall i :: 0 <= i < |fields| ==> r[i] == (if fields[i] in values then fields[i] + [Blank] else fields[i])
  {
    if fields == [] then []
    else
      var head := if fields[0] in values then fields[0] + [Blank] else fields[0];
      [head] + MarkFields(fields[1..], values)
  }

  /**
   * Marking right after handleMarkAnswered appends the blank to every field
   * that is not blank, whatever was marked before.
   */
  lemma MarkedAfterMarkAnswered(prev: map<nat, string>, fields: seq<string>)
    ensures var r := MarkFields(fields, DashboardGame.MarkedAnswers(prev, fields).Values);
      forall i :: 0 <= i < |fields| && Trim(fields[i]) != "" ==> r[i] == fields[i] + [Blank]
  {
    var m := DashboardGame.MarkedAnswers(prev, fields);
    DashboardGame.MarkedAnswersSpec(prev, fields);
    forall i | 0 <= i < |fields| && Trim(fields[i]) != ""
      ensures fields[i] in m.Values
    {
      var k: nat := i;
      assert k in m && m[k] == fields[i];
    }
  }

  /**
   * When no marked value is another marked value plus the blank, a second run
   * of the effect over its own output changes nothing.
   */
  lemma MarkFieldsSettles(fields: seq<string>, values: set<string>)
    requires forall v :: v in values ==> v + [Blank] !in values
    ensures MarkFields(MarkFields(fields, values), values) == MarkFields(fields, values)
  {
    var once := MarkFields(fields, values);
    var twice := MarkFields(once, values);
    forall i | 0 <= i < |fields|
      ensures twice[i] == once[i]
    {
      if fields[i] in values {
        assert once[i] == fields[i] + [Blank];
        assert once[i] !in values;
      }
    }
  }

  // ---------------------------------------------------------------------------
  // dummySave, which no button of the page is wired to
  // ---------------------------------------------------------------------------

  /** Whether the answer still has room: fewer fields than the hook's maximum and fewer than four recordings. */
  predicate Room(inputFieldsCount: int, maxFields: int, recordings: nat) {
    inputFieldsCount < maxFields && recordings < 4
  }

  /** handleFeedback's requests: the recorder is stopped unconditionally, then the answer saved. */
  const FeedbackCalls: seq<Call> := [StopRecording, SaveAndReset(false)]

  /**
   * dummySave's requests, in order: stop a running recording, the questions
   * clip for the first two answers of the day, and handleFeedback's requests
   * when there is no room left.
   */
  function SaveCalls(status: RecorderStatus, answeredToday: int, room: bool): seq<Call> {
    (if status == Recording then [StopRecording] else [])
    + (if answeredToday == 0 || answeredToday == 1 then [PlayGroup("kerdesek", false)] else [])
    + (if room then [] else FeedbackCalls)
  }

  /**
   * dummySave requests the questions clip once exactly for the first two
   * answers of the day, saves the answer exactly when there is no room left,
   * never as a skip, and asks the recorder to stop twice when it saves while
   * recording.
   */
  lemma SaveCallsSpec(status: RecorderStatus, answeredToday: int, room: bool)
    ensures var calls := SaveCalls(status, answeredToday, room);
      && GroupRequests(calls, "kerdesek") == (if answeredToday == 0 || answeredToday == 1 then 1 else 0)
      && (SaveAndReset(false) in calls <==> !room)
      && SaveAndReset(true) !in calls
      && (!room && status == Recording ==> calls[0] == StopRecording && calls[|calls| - 2] == StopRecording)
      && (!room ==> calls[|calls| - 1] == SaveAndReset(false))
  {
    var stop: seq<Call> := if status == Recording then [StopRecording] else [];
    var clip: seq<Call> := if answeredToday == 0 || answeredToday == 1 then [PlayGroup("kerdesek", false)] else [];
    var tail: seq<Call> := if room then [] else FeedbackCalls;
    assert SaveCalls(status, answeredToday, room) == stop + clip + tail;
    SaveCallsClipCount(stop, clip, tail);
  }

  lemma SaveCallsClipCount(stop: seq<Call>, clip: seq<Call>, tail: seq<Call>)
    requires stop == [] || stop == [StopRecording]
    requires clip == [] || clip == [PlayGroup("kerdesek", false)]
    requires tail == [] || tail == FeedbackCalls
    ensures GroupRequests(stop + clip + tail, "kerdesek") == |clip|
  {
    GroupRequestsAppend(stop + clip, tail, "kerdesek");
    GroupRequestsAppend(stop, clip, "kerdesek");
    NoneInCalls(stop, "kerdesek");
    NoneInCalls(tail, "kerdesek");
    if clip != [] {
      OneGroupRequest([], "kerdesek", false);
      assert [] + clip == clip;
    } else {
      NoneInCalls(clip, "kerdesek");
    }
  }

  // ---------------------------------------------------------------------------
  // The screen
  // ---------------------------------------------------------------------------

  class ExperimenterScreen {
    var pseudoUID: string
    var loaded: bool
    var saveButton: bool
    var maxRecs: int
    var hasPlayedFirstSeq: bool
    /** The hook's `showingQuestions` flag. */
    var showingQuestions: bool
    var answeredWithoutQuestions: map<nat, string>
    /** The hook's input fields, which the marking effect rewrites. */
    var inputFields: seq<string>
    var progressbarCounter: int
    var showLikertFeedback: bool
    var showGeneralFeedback: bool
    var showCurrentProgress: bool
    var showConfirmSkip: bool
    /** Requests to the sound manager, the recorder, the game hook and the router, in order. */
    var log: seq<Call>

    /** The first-concept sequence is requested once, when the ref is set, and never again. */
    ghost predicate Valid()
      reads this
    {
      FirstSequences(log) == (if hasPlayedFirstSeq then 1 else 0)
    }

    constructor (answeredToday: int, fields: seq<string>)
      ensures Valid()
      ensures pseudoUID == "" && !loaded && !saveButton && maxRecs == 4 && !hasPlayedFirstSeq
      ensures !showingQuestions && answeredWithoutQuestions == map[] && inputFields == fields
      ensures progressbarCounter == answeredToday && !showLikertFeedback && !showGeneralFeedback
      ensures showCurrentProgress && !showConfirmSkip && log == []
    {
      pseudoUID, loaded, saveButton, maxRecs, hasPlayedFirstSeq := "", false, false, 4, false;
      showingQuestions, answeredWithoutQuestions, inputFields := false, map[], fields;
      progressbarCounter, showLikertFeedback, showGeneralFeedback := answeredToday, false, false;
      showCurrentProgress, showConfirmSkip := true, false;
      log := [];
    }

    /** Appends calls none of which is the first-concept sequence. */
    method Emit(calls: seq<Call>)
      requires Valid()
      requires forall i :: 0 <= i < |calls| ==> !IsFirstSequence(calls[i])
      modifies this`log
      ensures Valid()
      ensures log == old(log) + calls
    {
      FirstSequencesAppend(log, calls);
      NoFirstSequences(calls);
      log := log + calls;
    }

    /** The session-storage effect. */
    method Mount(stored: Option<string>)
      requires Valid()
      modifies this`pseudoUID, this`log
      ensures Valid()
      ensures var r := FetchPseudoUID(stored);
        && (r.1 == [] ==> pseudoUID == r.0)
        && (r.1 != [] ==> pseudoUID == old(pseudoUID))
        && log == old(log) + r.1
    {
      if stored.Some? && stored.value != "" {
        pseudoUID := stored.value;
      } else {
        Emit([Navigate(LandingPath)]);
      }
    }

    /** The experiment-end effect, run when the practice value or the answered count changes. */
    method ExperimentEndEffect(practice: PracticeValue, answeredToday: int)
      requires Valid()
      modifies this`log
      ensures Valid()
      ensures var c := EndLine(practice, answeredToday);
        log == old(log) + (if c.Some? then [c.value] else [])
    {
      if practice != PracticeDone {
        return;
      }
      if answeredToday == 10 {
        Emit([PlayGroup("experimentVegen", false)]);
      }
    }

    /**
     * The concept effect: after practice it hides the concept until its timer
     * fires; a ready concept resets the save state to four recordings and
     * requests its audio.
     */
    method ConceptEffect(v: ConceptView)
      requires Valid()
      modifies this`loaded, this`saveButton, this`maxRecs, this`hasPlayedFirstSeq, this`log
      ensures Valid()
      ensures var step := ConceptAudio(old(hasPlayedFirstSeq), v);
        hasPlayedFirstSeq == step.0 && log == old(log) + (if step.1.Some? then [step.1.value] else [])
      ensures v.practice == PracticeDone ==> loaded == ConceptReady(v)
      ensures v.practice != PracticeDone ==> loaded == old(loaded)
      ensures ConceptReady(v) ==> !saveButton && maxRecs == 4
      ensures !ConceptReady(v) ==> saveButton == old(saveButton) && maxRecs == old(maxRecs)
    {
      if v.practice != PracticeDone {
        return;
      }
      loaded := false;
      if v.conceptId.Some? && v.renderReady {
        saveButton := false;
        maxRecs := 4;
        var id := v.conceptId.value;
        loaded := true;
        if v.answeredToday == 0 && !hasPlayedFirstSeq {
          hasPlayedFirstSeq := true;
          assert IsFirstSequence(FirstSequence(id));
          FirstSequencesAppend(log, [FirstSequence(id)]);
          assert [FirstSequence(id)][1..] == [];
          log := log + [FirstSequence(id)];
        } else if v.answeredToday < 10 {
          Emit([PlayConcept(id)]);
        }
      }
    }

    /** The progress bar follows the answered count. */
    method AnsweredCountChanged(answeredToday: int)
      modifies this`progressbarCounter
      ensures progressbarCounter == answeredToday
    {
      progressbarCounter := answeredToday;
    }

    /** handleMarkAnswered over the current fields; only dummySave calls it. */
    method HandleMarkAnswered()
      modifies this`answeredWithoutQuestions
      ensures answeredWithoutQuestions == DashboardGame.MarkedAnswers(old(answeredWithoutQuestions), inputFields)
    {
      answeredWithoutQuestions := DashboardGame.MarkAnswered(answeredWithoutQuestions, inputFields);
    }

    /** The field-marking effect. */
    method FieldMarkingEffect()
      modifies this`inputFields
      ensures inputFields == MarkFields(old(inputFields), answeredWithoutQuestions.Values)
    {
      inputFields := MarkFields(inputFields, answeredWithoutQuestions.Values);
    }

    /**
     * handleFeedback: forget the marked answers, close the questions, stop the
     * recorder, save, and open the scheduled panel; the progress bar advances
     * exactly when a panel opens. The 100 ms delay before the schedule is not
     * modelled.
     */
    method HandleFeedback(sessionAnswered: int)
      requires Valid()
      modifies this`answeredWithoutQuestions, this`showingQuestions, this`log, this`progressbarCounter,
               this`showLikertFeedback, this`showGeneralFeedback, this`showCurrentProgress
      ensures Valid()
      ensures answeredWithoutQuestions == map[] && !showingQuestions
      ensures log == old(log) + FeedbackCalls
      ensures var p := DashboardGame.FeedbackPanel(sessionAnswered, inputFields);
        && progressbarCounter == old(progressbarCounter) + (if p == DashboardGame.SaveOnly then 0 else 1)
        && showLikertFeedback == (old(showLikertFeedback) || p == DashboardGame.LikertPanel)
        && showGeneralFeedback == (old(showGeneralFeedback) || p == DashboardGame.GeneralPanel)
        && showCurrentProgress == (old(showCurrentProgress) && p == DashboardGame.SaveOnly)
    {
      answeredWithoutQuestions := map[];
      showingQuestions := false;
      ghost var p := DashboardGame.FeedbackPanel(sessionAnswered, inputFields);
      if sessionAnswered == 4 || sessionAnswered == 8 {
        if exists i :: 0 <= i < |inputFields| && inputFields[i] != "" {
          assert p == DashboardGame.LikertPanel;
          progressbarCounter := progressbarCounter + 1;
          showLikertFeedback := true;
          showCurrentProgress := false;
        } else {
          assert p == DashboardGame.SaveOnly;
        }
      } else if sessionAnswered == 0 || sessionAnswered == 2 || sessionAnswered == 6 {
        assert p == DashboardGame.GeneralPanel;
        showGeneralFeedback := true;
        showCurrentProgress := false;
        progressbarCounter := progressbarCounter + 1;
      } else {
        assert p == DashboardGame.SaveOnly;
      }
      Emit(FeedbackCalls);
    }

    /**
     * dummySave, wired to no button: open the questions, mark the filled fields, stop a
     * running recording, request the questions clip for the first two answers
     * of the day; with room left show the save state, otherwise run
     * handleFeedback, which discards the marks and closes the questions again.
     */
    method DummySave(status: RecorderStatus, answeredToday: int, inputFieldsCount: int, maxFields: int,
                     recordings: nat, sessionAnswered: int)
      requires Valid()
      modifies this`answeredWithoutQuestions, this`showingQuestions, this`log, this`saveButton, this`maxRecs,
               this`progressbarCounter, this`showLikertFeedback, this`showGeneralFeedback, this`showCurrentProgress
      ensures Valid()
      ensures log == old(log) + SaveCalls(status, answeredToday, Room(inputFieldsCount, maxFields, recordings))
      ensures Room(inputFieldsCount, maxFields, recordings) ==>
        && showingQuestions && saveButton && maxRecs == 4
        && answeredWithoutQuestions == DashboardGame.MarkedAnswers(old(answeredWithoutQuestions), inputFields)
        && progressbarCounter == old(progressbarCounter)
      ensures !Room(inputFieldsCount, maxFields, recordings) ==>
        && !showingQuestions && answeredWithoutQuestions == map[]
        && saveButton == old(saveButton) && maxRecs == old(maxRecs)
        && var p := DashboardGame.FeedbackPanel(sessionAnswered, inputFields);
          progressbarCounter == old(progressbarCounter) + (if p == DashboardGame.SaveOnly then 0 else 1)
    {
      ghost var log0 := log;
      OpenQuestions(status, answeredToday);
      if inputFieldsCount < maxFields && recordings < 4 {
        saveButton := true;
        maxRecs := 4;
      } else {
        HandleFeedback(sessionAnswered);
        assert log == log0 + SaveCalls(status, answeredToday, true) + FeedbackCalls;
      }
    }

    /** The part of dummySave before the room test. */
    method OpenQuestions(status: RecorderStatus, answeredToday: int)
      requires Valid()
      modifies this`answeredWithoutQuestions, this`showingQuestions, this`log
      ensures Valid()
      ensures showingQuestions
      ensures answeredWithoutQuestions == DashboardGame.MarkedAnswers(old(answeredWithoutQuestions), inputFields)
      ensures log == old(log) + SaveCalls(status, answeredToday, true)
    {
      showingQuestions := true;
      HandleMarkAnswered();
      var stop: seq<Call> := if status == Recording then [StopRecording] else [];
      var clip: seq<Call> := if answeredToday == 0 || answeredToday == 1 then [PlayGroup("kerdesek", false)] else [];
      Emit(stop + clip);
    }

    /** The skip button: stop a running recording and ask for confirmation. */
    method HandleShowConfirmSkip(status: RecorderStatus)
      requires Valid()
      modifies this`log, this`showConfirmSkip
      ensures Valid()
      ensures showConfirmSkip
      ensures log == old(log) + (if status == Recording then [StopRecording] else [])
    {
      if status == Recording {
        Emit([StopRecording]);
      }
      showConfirmSkip := true;
    }

    /**
     * Confirmed skip: save and reset without the skip flag (unlike the
     * dashboard's handler), then close the confirmation.
     */
    method HandleSkip()
      requires Valid()
      modifies this`log, this`showConfirmSkip
      ensures Valid()
      ensures !showConfirmSkip
      ensures log == old(log) + [SaveAndReset(false)]
    {
      Emit([SaveAndReset(false)]);
      showConfirmSkip := false;
    }
  }

  lemma {:induction false} NoFirstSequences(calls: seq<Call>)
    requires forall i :: 0 <= i < |calls| ==> !IsFirstSequence(calls[i])
    ensures FirstSequences(calls) == 0
  {
    if calls != [] {
      NoFirstSequences(calls[1..]);
    }
  }
}
