/**
 * The practice round of the experimenter's game. A concept resets the save
 * state to two recordings, the save handler always requests the questions
 * clip, the skip confirmation ends practice only once the save state is
 * shown, ending practice resets the round before reporting it done, ten
 * answers put the screen back in typing mode, and the intro is shown whenever
 * practice is not done.
 *
 * Every handler and effect is one event of a pure step function over the
 * screen's state; `PracticeComponent` holds that state and its methods are
 * proved against the step function, and properties of whole event sequences
 * are lemmas about `Run`.
 */
module ExperimenterPractice {
  import opened Common
  import opened Requests
  import DashboardPractice
  import ExperimenterGame

  /** The component state the handlers and effects change. */
  datatype Screen = Screen(
    saveButton: bool, maxRecs: int, loaded: bool, mode: Mode,
    showIntro: bool, showConfirmSkip: bool, progressbarCounter: int)

  /** The state on mounting: typing mode, two recordings, nothing shown. */
  function Initial(answeredToday: int): Screen {
    Screen(false, 2, false, Text, false, false, answeredToday)
  }

  /** One handler call or effect run. */
  datatype Event =
    | ConceptShown(hasConcept: bool, renderReady: bool)
    | Save(status: RecorderStatus, inputFieldsCount: int, recordings: nat)
    | AskSkip(status: RecorderStatus)
    | ConfirmSkip
    | CloseConfirm
    | EndPractice
    | AnsweredCountChanged(n: int)
    | PracticeChanged(p: PracticeValue)
    | CloseIntro

  /** handleEndPractice's requests: the game hook's reset, then the parent's setDone. */
  const EndCalls: seq<Call> := [ResetPractice, SetDone]

  /** The save handler's room test: fewer than ten fields and fewer than four recordings. */
  predicate Room(inputFieldsCount: int, recordings: nat) {
    inputFieldsCount < 10 && recordings < 4
  }

  /**
   * The state after one event and the requests it makes. A concept's 100 ms
   * timer is taken as fired, so a ready concept leaves the screen loaded.
   */
  function Step(s: Screen, e: Event): (r: (Screen, seq<Call>))
    ensures e.ConceptShown? && e.hasConcept && e.renderReady ==> !r.0.saveButton && r.0.maxRecs == 2
    ensures e.Save? ==> r.1 == (if e.status == Recording then [StopRecording] else []) + [PlayGroup("kerdesek", false)]
    ensures e.Save? && Room(e.inputFieldsCount, e.recordings) ==> r.0 == s.(saveButton := true, maxRecs := 4)
    ensures e.Save? && !Room(e.inputFieldsCount, e.recordings) ==> r.0 == s
    ensures e == ConfirmSkip ==> !r.0.showConfirmSkip && r.1 == (if s.saveButton then EndCalls else [])
    ensures e == EndPractice ==> r == (s, EndCalls)
    ensures e.AnsweredCountChanged? ==> r.0.progressbarCounter == e.n && (e.n == 10 ==> r.0.mode == Text)
    ensures e.PracticeChanged? && e.p != PracticeDone ==> r.0.showIntro
    ensures !e.Save? && !e.AskSkip? && e != ConfirmSkip && e != EndPractice ==> r.1 == []
  {
    match e
    case ConceptShown(has, ready) =>
      if has && ready then (s.(saveButton := false, maxRecs := 2, loaded := true), [])
      else (s.(loaded := false), [])
    case Save(status, count, recs) =>
      var calls := (if status == Recording then [StopRecording] else []) + [PlayGroup("kerdesek", false)];
      if Room(count, recs) then (s.(saveButton := true, maxRecs := 4), calls) else (s, calls)
    case AskSkip(status) =>
      (s.(showConfirmSkip := true), if status == Recording then [StopRecording] else [])
    case ConfirmSkip =>
      (s.(showConfirmSkip := false), if s.saveButton then EndCalls else [])
    case CloseConfirm =>
      (s.(showConfirmSkip := false), [])
    case EndPractice =>
      (s, EndCalls)
    case AnsweredCountChanged(n) =>
      (s.(progressbarCounter := n, mode := if n == 10 then Text else s.mode), [])
    case PracticeChanged(p) =>
      (s.(showIntro := s.showIntro || p != PracticeDone), [])
    case CloseIntro =>
      (s.(showIntro := false), [])
  }

  /** Runs the events in order; returns the final state and all requests made. */
  function Run(s: Screen, es: seq<Event>): (Screen, seq<Call>)
    decreases |es|
  {
    if es == [] then (s, [])
    else
      var step := Step(s, es[0]);
      var rest := Run(step.0, es[1..]);
      (rest.0, step.1 + rest.1)
  }

  // ---------------------------------------------------------------------------
  // Properties of event sequences
  // ---------------------------------------------------------------------------

  /** Two or four recordings allowed, and always typing mode (no handler switches to voice). */
  predicate Inv(s: Screen) {
    (s.maxRecs == 2 || s.maxRecs == 4) && s.mode == Text
  }

  /** The invariant holds on mounting and after any sequence of events. */
  lemma {:induction false} RunKeepsInv(s: Screen, es: seq<Event>)
    requires Inv(s)
    decreases |es|
    ensures Inv(Run(s, es).0)
  {
    if es != [] {
      RunKeepsInv(Step(s, es[0]).0, es[1..]);
    }
  }

  lemma InitialInv(answeredToday: int)
    ensures Inv(Initial(answeredToday)) && !Initial(answeredToday).saveButton
  {
  }

  /** Every request to mark practice done directly follows a reset request. */
  predicate ResetBeforeDone(calls: seq<Call>) {
    forall i :: 0 <= i < |calls| && calls[i] == SetDone ==> i > 0 && calls[i - 1] == ResetPractice
  }

  lemma ResetBeforeDoneAppend(a: seq<Call>, b: seq<Call>)
    requires ResetBeforeDone(a) && ResetBeforeDone(b)
    ensures ResetBeforeDone(a + b)
  {
    forall i | 0 <= i < |a + b| && (a + b)[i] == SetDone
      ensures i > 0 && (a + b)[i - 1] == ResetPractice
    {
      if i >= |a| {
        assert b[i - |a|] == SetDone;
        assert i - |a| > 0 && b[i - |a| - 1] == ResetPractice;
        assert (a + b)[i - 1] == b[i - |a| - 1];
      } else {
        assert a[i] == SetDone;
      }
    }
  }

  /** Whatever the events, practice is reported done only right after the round was reset. */
  lemma {:induction false} RunResetsBeforeDone(s: Screen, es: seq<Event>)
    decreases |es|
    ensures ResetBeforeDone(Run(s, es).1)
  {
    if es != [] {
      var step := Step(s, es[0]);
      RunResetsBeforeDone(step.0, es[1..]);
      assert ResetBeforeDone(step.1) by {
        if step.1 == EndCalls {
          assert EndCalls[1] == SetDone && EndCalls[0] == ResetPractice;
        }
      }
      ResetBeforeDoneAppend(step.1, Run(step.0, es[1..]).1);
    }
  }

  /**
   * Without a save that shows the save state and without the end-practice
   * button, confirming a skip never ends practice: the save state stays hidden
   * and no done request is made.
   */
  lemma {:induction false} SkipNeedsSaveState(s: Screen, es: seq<Event>)
    requires !s.saveButton
    requires forall i :: 0 <= i < |es| ==> !es[i].Save? && es[i] != EndPractice
    decreases |es|
    ensures !Run(s, es).0.saveButton
    ensures SetDone !in Run(s, es).1
  {
    if es != [] {
      var step := Step(s, es[0]);
      assert !step.0.saveButton && SetDone !in step.1;
      SkipNeedsSaveState(step.0, es[1..]);
    }
  }

  /** The number of save events in a sequence. */
  function Saves(es: seq<Event>): (n: nat)
    ensures n <= |es|
  {
    if es == [] then 0 else (if es[0].Save? then 1 else 0) + Saves(es[1..])
  }

  /** One event requests the questions clip exactly when it is a save. */
  lemma StepQuestionsClip(s: Screen, e: Event)
    ensures GroupRequests(Step(s, e).1, "kerdesek") == (if e.Save? then 1 else 0)
  {
    var calls := Step(s, e).1;
    if e.Save? {
      var stop: seq<Call> := if e.status == Recording then [StopRecording] else [];
      NoneInCalls(stop, "kerdesek");
      OneGroupRequest(stop, "kerdesek", false);
    } else {
      NoneInCalls(calls, "kerdesek");
    }
  }

  /** Over any events, the questions clip is requested exactly once per save. */
  lemma {:induction false} QuestionsClipPerSave(s: Screen, es: seq<Event>)
    decreases |es|
    ensures GroupRequests(Run(s, es).1, "kerdesek") == Saves(es)
  {
    if es != [] {
      var step := Step(s, es[0]);
      QuestionsClipPerSave(step.0, es[1..]);
      StepQuestionsClip(s, es[0]);
      GroupRequestsAppend(step.1, Run(step.0, es[1..]).1, "kerdesek");
    }
  }

  /** Whenever the practice screen renders, the practice effect has asked for the intro. */
  lemma IntroWhenRendered(s: Screen, p: PracticeValue, show: bool)
    requires DashboardPractice.Renders(p, show)
    ensures Step(s, PracticeChanged(p)).0.showIntro
  {
  }

  // ---------------------------------------------------------------------------
  // The component
  // ---------------------------------------------------------------------------

  class PracticeComponent {
    var saveButton: bool
    var maxRecs: int
    var loaded: bool
    var mode: Mode
    var showIntro: bool
    var showConfirmSkip: bool
    var progressbarCounter: int
    var pseudoUID: string
    /** Requests to the sound manager, the recorder, the game hook, the parent and the router, in order. */
    var log: seq<Call>

    ghost function State(): Screen
      reads this
    {
      Screen(saveButton, maxRecs, loaded, mode, showIntro, showConfirmSkip, progressbarCounter)
    }

    constructor (answeredToday: int)
      ensures State() == Initial(answeredToday) && pseudoUID == "" && log == []
    {
      saveButton, maxRecs, loaded, mode := false, 2, false, Text;
      showIntro, showConfirmSkip, progressbarCounter := false, false, answeredToday;
      pseudoUID := "";
      log := [];
    }

    /** The session-storage effect, the same as on the game screen. */
    method Mount(stored: Option<string>)
      modifies this`pseudoUID, this`log
      ensures var r := ExperimenterGame.FetchPseudoUID(stored);
        && (r.1 == [] ==> pseudoUID == r.0)
        && (r.1 != [] ==> pseudoUID == old(pseudoUID))
        && log == old(log) + r.1
    {
      if stored.Some? && stored.value != "" {
        pseudoUID := stored.value;
      } else {
        log := log + [Navigate(ExperimenterGame.LandingPath)];
      }
    }

    /** The concept effect: hide the concept, and for a ready one reset the save state to two recordings. */
    method ConceptEffect(hasConcept: bool, renderReady: bool)
      modifies this`loaded, this`saveButton, this`maxRecs
      ensures State() == Step(old(State()), ConceptShown(hasConcept, renderReady)).0
    {
      loaded := false;
      if hasConcept && renderReady {
        saveButton := false;
        maxRecs := 2;
        loaded := true;
      }
    }

    /** dummySave. */
    method DummySave(status: RecorderStatus, inputFieldsCount: int, recordings: nat)
      modifies this`log, this`saveButton, this`maxRecs
      ensures var step := Step(old(State()), Save(status, inputFieldsCount, recordings));
        State() == step.0 && log == old(log) + step.1
    {
      var calls: seq<Call> := [];
      if status == Recording {
        calls := calls + [StopRecording];
      }
      calls := calls + [PlayGroup("kerdesek", false)];
      if inputFieldsCount < 10 && recordings < 4 {
        saveButton := true;
        maxRecs := 4;
      }
      log := log + calls;
    }

    /** handleShowConfirmSkip. */
    method HandleShowConfirmSkip(status: RecorderStatus)
      modifies this`log, this`showConfirmSkip
      ensures var step := Step(old(State()), AskSkip(status));
        State() == step.0 && log == old(log) + step.1
    {
      if status == Recording {
        log := log + [StopRecording];
      }
      showConfirmSkip := true;
    }

    /** handleEndPractice: the round is reset before practice is reported done. */
    method HandleEndPractice()
      modifies this`log
      ensures var step := Step(old(State()), EndPractice);
        State() == step.0 && log == old(log) + step.1
    {
      log := log + [ResetPractice];
      log := log + [SetDone];
    }

    /** The confirmation's action: it ends practice only once the save state is shown; it always closes. */
    method ConfirmSkipAction()
      modifies this`log, this`showConfirmSkip
      ensures var step := Step(old(State()), ConfirmSkip);
        State() == step.0 && log == old(log) + step.1
    {
      if saveButton {
        showConfirmSkip := false;
        HandleEndPractice();
      } else {
        showConfirmSkip := false;
      }
    }

    /** The confirmation's close button. */
    method CloseConfirmAction()
      modifies this`showConfirmSkip
      ensures State() == Step(old(State()), CloseConfirm).0
    {
      showConfirmSkip := false;
    }

    /** The two effects on the answered count: the progress bar follows it, and ten resets the mode to typing. */
    method AnsweredCountEffects(answeredToday: int)
      modifies this`progressbarCounter, this`mode
      ensures State() == Step(old(State()), AnsweredCountChanged(answeredToday)).0
    {
      progressbarCounter := answeredToday;
      if answeredToday == 10 {
        mode := Text;
      }
    }

    /** The practice effect: the intro is shown whenever practice is not done. */
    method PracticeEffect(practice: PracticeValue)
      modifies this`showIntro
      ensures State() == Step(old(State()), PracticeChanged(practice)).0
    {
      if practice != PracticeDone {
        showIntro := true;
      }
    }

    method HandleCloseIntro()
      modifies this`showIntro
      ensures State() == Step(old(State()), CloseIntro).0
    {
      showIntro := false;
    }
  }
}
