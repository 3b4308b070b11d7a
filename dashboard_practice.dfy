/**
 * The practice round of the dashboard game: one fixed word per practice
 * variant, an onboarding overlay whose step changes request the recording
 * demonstration once, prompts after the first two recordings, the questions
 * clip, and the gates on the save, skip and keyboard buttons.
 */
module DashboardPractice {
  import opened Common
  import opened Requests

  /** The practice word shown for each variant; nothing once practice is done or unknown. */
  function PracticeWord(p: PracticeValue): (w: Option<string>)
    ensures w.Some? <==> p == Female || p == Male || p == Neutral
    ensures p == Female ==> w == Some("KATICABOGÁR")
    ensures p == Male ==> w == Some("ŰRHAJÓ")
    ensures p == Neutral ==> w == Some("HOMOKOZÓ")
  {
    match p
    case Female => Some("KATICABOGÁR")
    case Male => Some("ŰRHAJÓ")
    case Neutral => Some("HOMOKOZÓ")
    case _ => None
  }

  /** The component renders only for a practice variant and while shown. */
  predicate Renders(p: PracticeValue, show: bool) {
    (p == Female || p == Male || p == Neutral) && show
  }

  /** Whenever the practice screen renders, it has a word to show, and the three words differ. */
  lemma RenderedWord(p: PracticeValue, show: bool)
    ensures Renders(p, show) ==> PracticeWord(p).Some?
    ensures !show ==> !Renders(p, show)
    ensures PracticeWord(Female) != PracticeWord(Male) && PracticeWord(Male) != PracticeWord(Neutral)
      && PracticeWord(Female) != PracticeWord(Neutral)
  {
  }

  /** The prompt after the recordings count changed: encouragement at one, confirmation at two, else nothing. */
  function PracticePrompt(prev: nat, curr: nat): (c: Option<Call>)
    ensures c == Some(PlayGroup("biztatas", false)) <==> curr > prev && curr == 1
    ensures c == Some(PlayGroup("megerosites", false)) <==> curr > prev && curr == 2
    ensures c.None? <==> curr <= prev || (curr != 1 && curr != 2)
  {
    if curr > prev then
      if curr == 1 then Some(PlayGroup("biztatas", false))
      else if curr == 2 then Some(PlayGroup("megerosites", false))
      else None
    else None
  }

  /** The clip of the "questions" group: the first before any recording, the second after. */
  function KerdesekIndex(recordings: nat): (i: nat)
    ensures i == 0 <==> recordings == 0
    ensures i <= 1
  {
    if recordings == 0 then 0 else 1
  }

  /** The overlay step of the questions help item. */
  const QuestionIdx := 6

  /** A step change from the overlay: a plain value, or an updater adding `delta` to the current step. */
  datatype StepUpdate = SetStep(step: int) | AdvanceBy(delta: int)

  /** The new step: an updater is applied to the step last recorded in the ref. */
  function NewStep(prevStep: int, u: StepUpdate): (s: int)
    ensures u.SetStep? ==> s == u.step
    ensures u.AdvanceBy? ==> s == prevStep + u.delta
  {
    match u
    case SetStep(n) => n
    case AdvanceBy(k) => prevStep + k
  }

  /** Whether a step change requests the recording demonstration: entering step 1, not played before. */
  predicate FelvetelFires(prevStep: int, played: bool, newStep: int) {
    newStep == 1 && prevStep != 1 && !played
  }

  class PracticeScreen {
    var mode: Mode
    var saveButton: bool
    var maxRecs: int
    var loaded: bool
    var showIntro: bool
    var showPracticeOverlay: bool
    var showPracticeFeedback: bool
    var showQuestionsFeedback: bool
    var showLikertFeedback: bool
    var showGeneralFeedback: bool
    var showConfirmSkip: bool
    var overlayStep: int
    var prevStep: int
    var felvetelPlayed: bool
    var prevRecCount: nat
    var postQStartCount: nat
    var biztatasPlayed: bool
    var megerositesPlayed: bool
    var questionsSeen: bool
    var log: seq<Call>

    /** The recording demonstration is requested once, when the flag is set, and never again. */
    ghost predicate Valid()
      reads this
    {
      GroupRequests(log, "felvetelBemutato") == (if felvetelPlayed then 1 else 0)
    }

    constructor ()
      ensures Valid()
      ensures mode == Voice && !saveButton && maxRecs == 2 && !loaded && !showIntro
      ensures showPracticeOverlay && !showPracticeFeedback && !showQuestionsFeedback
      ensures !showLikertFeedback && !showGeneralFeedback && !showConfirmSkip
      ensures overlayStep == 0 && prevStep == -1 && !felvetelPlayed && prevRecCount == 0
      ensures postQStartCount == 0 && !biztatasPlayed && !megerositesPlayed && !questionsSeen
      ensures log == []
    {
      mode, saveButton, maxRecs, loaded, showIntro := Voice, false, 2, false, false;
      showPracticeOverlay, showPracticeFeedback, showQuestionsFeedback := true, false, false;
      showLikertFeedback, showGeneralFeedback, showConfirmSkip := false, false, false;
      overlayStep, prevStep, felvetelPlayed, prevRecCount := 0, -1, false, 0;
      postQStartCount, biztatasPlayed, megerositesPlayed, questionsSeen := 0, false, false, false;
      log := [];
    }

    /** Appends calls that do not request the recording demonstration. */
    method Emit(calls: seq<Call>)
      requires Valid()
      requires forall i :: 0 <= i < |calls| ==> !(calls[i].PlayGroup? && calls[i].group == "felvetelBemutato")
      modifies this`log
      ensures Valid()
      ensures log == old(log) + calls
    {
      NoGroupRequests(log, calls, "felvetelBemutato");
      log := log + calls;
    }

    /**
     * onStepChange: the recording demonstration is requested on entering step 1
     * unless it played before; the ref and the overlay step both take the new step.
     */
    method OnStepChange(u: StepUpdate)
      requires Valid()
      modifies this`felvetelPlayed, this`prevStep, this`overlayStep, this`log
      ensures Valid()
      ensures prevStep == NewStep(old(prevStep), u) && overlayStep == prevStep
      ensures FelvetelFires(old(prevStep), old(felvetelPlayed), prevStep) ==>
        log == old(log) + [PlayGroup("felvetelBemutato", false)] && felvetelPlayed
      ensures !FelvetelFires(old(prevStep), old(felvetelPlayed), prevStep) ==>
        log == old(log) && felvetelPlayed == old(felvetelPlayed)
      ensures GroupRequests(log, "felvetelBemutato") <= 1
    {
      var newStep := match u case SetStep(n) => n case AdvanceBy(k) => prevStep + k;
      if newStep == 1 && prevStep != 1 && !felvetelPlayed {
        OneGroupRequest(log, "felvetelBemutato", false);
        log := log + [PlayGroup("felvetelBemutato", false)];
        felvetelPlayed := true;
      }
      prevStep := newStep;
      overlayStep := newStep;
    }

    /** onClose of the overlay: hide it and show the save state. */
    method OnOverlayClose()
      modifies this`showPracticeOverlay, this`saveButton
      ensures !showPracticeOverlay && saveButton
    {
      showPracticeOverlay := false;
      saveButton := true;
    }

    /** The questions panel opening takes a snapshot of the recordings count and re-arms the prompt flags. */
    method QuestionsOpenedEffect(show: bool, recordings: nat)
      modifies this`postQStartCount, this`biztatasPlayed, this`megerositesPlayed, this`questionsSeen
      ensures show ==> postQStartCount == recordings && !biztatasPlayed && !megerositesPlayed && questionsSeen
      ensures !show ==> unchanged(this)
    {
      if show {
        postQStartCount := recordings;
        biztatasPlayed, megerositesPlayed := false, false;
        questionsSeen := true;
      }
    }

    /** The recordings-count effect. */
    method RecordingsChanged(curr: nat)
      requires Valid()
      modifies this`prevRecCount, this`log
      ensures Valid()
      ensures prevRecCount == curr
      ensures var c := PracticePrompt(old(prevRecCount), curr); log == old(log) + (if c.Some? then [c.value] else [])
    {
      if curr > prevRecCount {
        if curr == 1 {
          Emit([PlayGroup("biztatas", false)]);
        } else if curr == 2 {
          Emit([PlayGroup("megerosites", false)]);
        }
      }
      prevRecCount := curr;
    }

    /** While the questions panel is shown, every run of the effect requests the matching "questions" clip. */
    method QuestionsClipEffect(show: bool, recordings: nat)
      requires Valid()
      modifies this`log
      ensures Valid()
      ensures log == old(log) + (if show then [PlayFile("kerdesek", KerdesekIndex(recordings))] else [])
    {
      if show {
        var idx := if recordings == 0 then 0 else 1;
        Emit([PlayFile("kerdesek", idx)]);
      }
    }

    /** A new concept hides the save state and allows two recordings. */
    method ConceptChanged(hasConcept: bool, renderReady: bool)
      modifies this`loaded, this`saveButton, this`maxRecs
      ensures !loaded
      ensures hasConcept && renderReady ==> !saveButton && maxRecs == 2
      ensures !(hasConcept && renderReady) ==> saveButton == old(saveButton) && maxRecs == old(maxRecs)
    {
      loaded := false;
      if hasConcept && renderReady {
        saveButton := false;
        maxRecs := 2;
      }
    }

    /** While practice is not done the intro and the overlay are shown. */
    method PracticeChanged(practice: PracticeValue)
      modifies this`showIntro, this`showPracticeOverlay
      ensures practice != PracticeDone ==> showIntro && showPracticeOverlay
      ensures practice == PracticeDone ==> unchanged(this)
    {
      if practice != PracticeDone {
        showIntro := true;
        showPracticeOverlay := true;
      }
    }

    /**
     * The save button: with room for more fields and recordings it shows the save
     * state and allows four recordings; for the first two answers of the day it also
     * hides the overlay and moves it to the questions step (without a step change
     * callback, so the ref keeps its value).
     */
    method DummySave(status: RecorderStatus, inputFieldsCount: int, recordings: nat, answeredToday: int)
      requires Valid()
      modifies this`log, this`showPracticeOverlay, this`overlayStep, this`saveButton, this`maxRecs
      ensures Valid()
      ensures log == old(log) + (if status == Recording then [StopRecording] else [])
      ensures inputFieldsCount < 10 && recordings < 4 ==> saveButton && maxRecs == 4
      ensures inputFieldsCount < 10 && recordings < 4 && (answeredToday == 0 || answeredToday == 1) ==>
        !showPracticeOverlay && overlayStep == QuestionIdx
      ensures !(inputFieldsCount < 10 && recordings < 4 && (answeredToday == 0 || answeredToday == 1)) ==>
        showPracticeOverlay == old(showPracticeOverlay) && overlayStep == old(overlayStep)
      ensures !(inputFieldsCount < 10 && recordings < 4) ==> saveButton == old(saveButton) && maxRecs == old(maxRecs)
    {
      if status == Recording {
        Emit([StopRecording]);
      }
      if inputFieldsCount < 10 && recordings < 4 {
        if answeredToday == 0 || answeredToday == 1 {
          showPracticeOverlay := false;
          overlayStep := QuestionIdx;
        }
        saveButton := true;
        maxRecs := 4;
      }
    }

    /** The skip button: stop a running recording and ask for confirmation. */
    method HandleShowConfirmSkip(status: RecorderStatus)
      requires Valid()
      modifies this`log, this`showConfirmSkip
      ensures Valid()
      ensures showConfirmSkip
      ensures log == old(log) + (if status == Recording then [StopRecording] else [])
    {
      if status == Recording {
        Emit([StopRecording]);
      }
      showConfirmSkip := true;
    }

    /** handleEndPractice: reset the practice, show its feedback, play the closing line. */
    method HandleEndPractice()
      requires Valid()
      modifies this`log, this`showPracticeFeedback
      ensures Valid()
      ensures showPracticeFeedback
      ensures log == old(log) + [ResetPractice, PlayGroup("gyakorlasVege", false)]
    {
      Emit([ResetPractice]);
      showPracticeFeedback := true;
      Emit([PlayGroup("gyakorlasVege", false)]);
    }

    /** Closing the practice feedback marks practice as done and brings the overlay back. */
    method HandleClosePracticeFeedback()
      requires Valid()
      modifies this`log, this`showPracticeFeedback, this`showPracticeOverlay
      ensures Valid()
      ensures !showPracticeFeedback && showPracticeOverlay
      ensures log == old(log) + [SetDone, SetPracticeDone]
    {
      Emit([SetDone]);
      showPracticeFeedback := false;
      Emit([SetPracticeDone]);
      showPracticeOverlay := true;
    }

    /** The confirmation's action: it ends practice only once the save state is shown; it always closes. */
    method ConfirmSkip()
      requires Valid()
      modifies this`log, this`showConfirmSkip, this`showPracticeFeedback
      ensures Valid()
      ensures !showConfirmSkip
      ensures saveButton ==> showPracticeFeedback && log == old(log) + [ResetPractice, PlayGroup("gyakorlasVege", false)]
      ensures !saveButton ==> showPracticeFeedback == old(showPracticeFeedback) && log == old(log)
    {
      if saveButton {
        showConfirmSkip := false;
        HandleEndPractice();
      } else {
        showConfirmSkip := false;
      }
    }

    /** The keyboard toggle works only once the save state is shown: typing mode and its demonstration. */
    method KeyboardClicked()
      requires Valid()
      modifies this`mode, this`log
      ensures Valid()
      ensures saveButton ==> mode == Text && log == old(log) + [PlayGroup("beirasBemutato", false)]
      ensures !saveButton ==> mode == old(mode) && log == old(log)
    {
      if saveButton {
        mode := Text;
        Emit([PlayGroup("beirasBemutato", false)]);
      }
    }

    /** Closing the questions panel brings the overlay back. */
    method HandleCloseQuestionsFeedback()
      modifies this`showQuestionsFeedback, this`showPracticeOverlay
      ensures !showQuestionsFeedback && showPracticeOverlay
    {
      showQuestionsFeedback := false;
      showPracticeOverlay := true;
    }

    /** Ten answered closes the three panels and returns to voice mode. */
    method DoneReset(answeredToday: int)
      modifies this`showQuestionsFeedback, this`showLikertFeedback, this`showGeneralFeedback, this`mode
      ensures answeredToday == 10 ==> !showQuestionsFeedback && !showLikertFeedback && !showGeneralFeedback && mode == Voice
      ensures answeredToday != 10 ==> unchanged(this)
    {
      if answeredToday == 10 {
        showQuestionsFeedback, showLikertFeedback, showGeneralFeedback := false, false, false;
        mode := Voice;
      }
    }
  }
}
