/**
 * The game screen of the dashboard after practice. Its effects compare a
 * "previous value" ref with the current props and request voice prompts:
 * the two-minute auto-stop, the prompt after each new recording, the concept
 * audio once per concept, and the clips played on the rising edge of each
 * feedback panel. Its handlers decide which feedback panel follows an answer.
 *
 * Each effect is specified by a pure step function; the `GameSession` class
 * holds the refs and state and its methods are proved against those functions.
 * Trace functions run a step function over a sequence of renders, and the
 * "at most once" and "only on a rising edge" properties are lemmas about them.
 */
module DashboardGame {
  import opened Common
  import opened Requests

  // ---------------------------------------------------------------------------
  // Auto-stop at the time limit
  // ---------------------------------------------------------------------------

  /** The refs of the auto-stop effect. */
  datatype TimerRefs = TimerRefs(timedOut: bool, prevTimer: int)

  /** The timer value at which a recording is stopped. */
  const TimeLimit := 119

  /** Whether the auto-stop fires for this render: recording, crossing the limit upwards, not yet timed out. */
  predicate AutoStopFires(r: TimerRefs, status: RecorderStatus, now: int) {
    status == Recording && r.prevTimer < TimeLimit && now >= TimeLimit && !r.timedOut
  }

  /** The refs after the auto-stop effect: the timer is always remembered, timedOut is set when it fires. */
  function AutoStopStep(r: TimerRefs, status: RecorderStatus, now: int): (r': TimerRefs)
    ensures r'.prevTimer == now
    ensures r'.timedOut <==> r.timedOut || AutoStopFires(r, status, now)
  {
    TimerRefs(r.timedOut || AutoStopFires(r, status, now), now)
  }

  /** One render of the timer: the recorder status and the timer value in seconds. */
  datatype Tick = Tick(status: RecorderStatus, timer: int)

  /** Runs the auto-stop effect over successive renders; returns the final refs and the number of stops. */
  function AutoStopRun(r: TimerRefs, ticks: seq<Tick>): (TimerRefs, nat)
    decreases |ticks|
  {
    if ticks == [] then (r, 0)
    else
      var fires := AutoStopFires(r, ticks[0].status, ticks[0].timer);
      var rest := AutoStopRun(AutoStopStep(r, ticks[0].status, ticks[0].timer), ticks[1..]);
      (rest.0, (if fires then 1 else 0) + rest.1)
  }

  /**
   * While nothing clears `timedOut`, the auto-stop fires at most once, never when
   * `timedOut` is already set, and leaves `timedOut` set after it fired; a stop
   * needs a render that is recording at or past the limit; the last timer value
   * is always remembered.
   */
  lemma {:induction false} AutoStopAtMostOnce(r: TimerRefs, ticks: seq<Tick>)
    decreases |ticks|
    ensures AutoStopRun(r, ticks).1 <= 1
    ensures r.timedOut ==> AutoStopRun(r, ticks).1 == 0 && AutoStopRun(r, ticks).0.timedOut
    ensures AutoStopRun(r, ticks).1 == 1 ==> AutoStopRun(r, ticks).0.timedOut
    ensures AutoStopRun(r, ticks).1 == 1 ==>
      exists i :: 0 <= i < |ticks| && ticks[i].status == Recording && ticks[i].timer >= TimeLimit
    ensures ticks != [] ==> AutoStopRun(r, ticks).0.prevTimer == ticks[|ticks| - 1].timer
    ensures ticks == [] ==> AutoStopRun(r, ticks).0 == r
  {
    if ticks != [] {
      var r1 := AutoStopStep(r, ticks[0].status, ticks[0].timer);
      AutoStopAtMostOnce(r1, ticks[1..]);
      if AutoStopRun(r, ticks).1 == 1 && !AutoStopFires(r, ticks[0].status, ticks[0].timer) {
        var i :| 0 <= i < |ticks[1..]| && ticks[1..][i].status == Recording && ticks[1..][i].timer >= TimeLimit;
        assert ticks[i + 1] == ticks[1..][i];
      }
      if |ticks| > 1 {
        assert ticks[1..][|ticks[1..]| - 1] == ticks[|ticks| - 1];
      }
    }
  }

  // ---------------------------------------------------------------------------
  // The prompt after a new recording
  // ---------------------------------------------------------------------------

  /**
   * The prompt requested when the recordings count goes from `prev` to `curr`:
   * the delayed "recording over" clip after a time-out, else encouragement after
   * the first recording, else confirmation; nothing unless the count grew.
   */
  function RecCountPrompt(timedOut: bool, prev: nat, curr: nat): (c: Option<Call>)
    ensures c.Some? <==> curr > prev
    ensures c == Some(PlayGroupAfter("felvetelVege", 500)) <==> curr > prev && timedOut
    ensures c == Some(PlayGroup("biztatas", false)) <==> curr > prev && !timedOut && prev == 0
    ensures c == Some(PlayGroup("megerosites", false)) <==> curr > prev && !timedOut && prev != 0
  {
    if curr > prev then
      if timedOut then Some(PlayGroupAfter("felvetelVege", 500))
      else if prev == 0 then Some(PlayGroup("biztatas", false))
      else Some(PlayGroup("megerosites", false))
    else None
  }

  /** The time-out flag after the recordings count changed: cleared exactly when the time-out prompt was chosen. */
  function TimedOutAfterCount(timedOut: bool, prev: nat, curr: nat): (t: bool)
    ensures t <==> timedOut && curr <= prev
  {
    timedOut && !(curr > prev)
  }

  /** A time-out followed by the recording it produced always ends with the "recording over" clip and clears the flag. */
  lemma TimeoutThenRecordingOver(r: TimerRefs, status: RecorderStatus, now: int, prev: nat, curr: nat)
    requires AutoStopFires(r, status, now) && curr > prev
    ensures RecCountPrompt(AutoStopStep(r, status, now).timedOut, prev, curr) == Some(PlayGroupAfter("felvetelVege", 500))
    ensures !TimedOutAfterCount(AutoStopStep(r, status, now).timedOut, prev, curr)
  {
  }

  // ---------------------------------------------------------------------------
  // Concept audio, once per concept
  // ---------------------------------------------------------------------------

  /** What the concept-audio effect reads on one render. */
  datatype AudioView = AudioView(
    practice: PracticeValue, questionsOpen: bool, generalOpen: bool, likertOpen: bool,
    answeredToday: int, conceptId: Option<string>, status: RecorderStatus)

  /** The effect returns early: practice not done, a panel open, ten answered, no concept, or recording. */
  predicate AudioBlocked(v: AudioView) {
    || v.practice != PracticeDone
    || v.questionsOpen || v.generalOpen || v.likertOpen
    || v.answeredToday == 10
    || v.conceptId.None? || v.conceptId.value == ""
    || v.status == Recording
  }

  /** The introduction line followed by the concept's own clip. */
  function ConceptSequence(id: string): Call {
    PlaySequence([GroupStep("elsoFogalom", true), ConceptStep(id)])
  }

  /** The ref and the request after one run of the concept-audio effect. */
  function ConceptAudioStep(played: Option<string>, v: AudioView): (res: (Option<string>, Option<Call>))
    ensures res.1.Some? <==> !AudioBlocked(v) && played != v.conceptId
    ensures res.1.Some? ==> res.1.value == ConceptSequence(v.conceptId.value) && res.0 == v.conceptId
    ensures res.1.None? ==> res.0 == played
  {
    if AudioBlocked(v) then (played, None)
    else if played == v.conceptId then (played, None)
    else (v.conceptId, Some(ConceptSequence(v.conceptId.value)))
  }

  /** Runs the concept-audio effect over successive renders; returns the final ref and the requests made. */
  function ConceptAudioRun(played: Option<string>, views: seq<AudioView>): (Option<string>, seq<Call>)
    decreases |views|
  {
    if views == [] then (played, [])
    else
      var step := ConceptAudioStep(played, views[0]);
      var rest := ConceptAudioRun(step.0, views[1..]);
      (rest.0, (if step.1.Some? then [step.1.value] else []) + rest.1)
  }

  /**
   * Over renders that all show the same concept, the concept audio is requested at
   * most once, not at all if it was already played for it, and only as the
   * introduction-plus-concept sequence.
   */
  lemma {:induction false} ConceptAudioOncePerConcept(played: Option<string>, views: seq<AudioView>, id: string)
    requires forall i :: 0 <= i < |views| ==> views[i].conceptId == Some(id)
    decreases |views|
    ensures |ConceptAudioRun(played, views).1| <= 1
    ensures played == Some(id) ==> ConceptAudioRun(played, views).1 == []
    ensures forall c :: c in ConceptAudioRun(played, views).1 ==> c == ConceptSequence(id)
  {
    if views != [] {
      var step := ConceptAudioStep(played, views[0]);
      ConceptAudioOncePerConcept(step.0, views[1..], id);
      if step.1.Some? {
        ConceptAudioOncePerConcept(Some(id), views[1..], id);
      }
    }
  }

  /** No render that blocks the effect ever requests the concept audio. */
  lemma {:induction false} ConceptAudioNeverWhenBlocked(played: Option<string>, views: seq<AudioView>)
    requires forall i :: 0 <= i < |views| ==> AudioBlocked(views[i])
    ensures ConceptAudioRun(played, views) == (played, [])
    decreases |views|
  {
    if views != [] {
      ConceptAudioNeverWhenBlocked(played, views[1..]);
      var step := ConceptAudioStep(played, views[0]);
      assert step.1 == None && step.0 == played;
      var rest := ConceptAudioRun(step.0, views[1..]);
      var none: seq<Call> := [];
      assert none + rest.1 == none;
      assert ConceptAudioRun(played, views) == (rest.0, none + rest.1);
    }
  }

  // ---------------------------------------------------------------------------
  // Rising edges of the feedback panels
  // ---------------------------------------------------------------------------

  predicate RisingEdge(prev: bool, now: bool) {
    now && !prev
  }

  /** The number of rising edges along successive values of a flag, starting from `prev`. */
  function RisingEdges(prev: bool, values: seq<bool>): (n: nat)
    ensures n <= |values|
    decreases |values|
  {
    if values == [] then 0
    else (if RisingEdge(prev, values[0]) then 1 else 0) + RisingEdges(values[0], values[1..])
  }

  /** While a panel stays open its clip is requested at most once, and not at all if it was already open. */
  lemma {:induction false} HeldOpenFiresOnce(prev: bool, values: seq<bool>)
    requires forall i :: 0 <= i < |values| ==> values[i]
    ensures RisingEdges(prev, values) <= 1
    ensures prev ==> RisingEdges(prev, values) == 0
    decreases |values|
  {
    if values != [] {
      HeldOpenFiresOnce(values[0], values[1..]);
    }
  }

  /** A panel that is never open requests nothing. */
  lemma {:induction false} ClosedNeverFires(prev: bool, values: seq<bool>)
    requires forall i :: 0 <= i < |values| ==> !values[i]
    ensures RisingEdges(prev, values) == 0
    decreases |values|
  {
    if values != [] {
      ClosedNeverFires(values[0], values[1..]);
    }
  }

  /** The sound groups of the "next concept" clips. */
  const NextPrefixes: seq<string> := ["kovetkezoMegtanit", "kovetkezoErtek", "kovetkezoTudom"]

  /** The clip of a "next concept" group for the answered count: the count clamped to [0, 9]. */
  function NextClipIndex(answeredToday: int): (i: nat)
    ensures i <= 9
    ensures 0 <= answeredToday <= 9 ==> i == answeredToday
    ensures answeredToday < 0 ==> i == 0
    ensures answeredToday > 9 ==> i == 9
  {
    if answeredToday < 0 then 0 else if answeredToday > 9 then 9 else answeredToday
  }

  // ---------------------------------------------------------------------------
  // The feedback schedule
  // ---------------------------------------------------------------------------

  /** Which panel follows a saved answer. */
  datatype Panel = LikertPanel | GeneralPanel | SaveOnly

  predicate SomeFieldFilled(fields: seq<string>) {
    exists i :: 0 <= i < |fields| && fields[i] != ""
  }

  /**
   * The schedule of handleFeedback over the answers saved this session: after the
   * 5th and 9th the helpfulness scale (only if some field holds text), after the
   * 1st, 3rd and 7th the general panel, otherwise the answer is only saved.
   */
  function FeedbackPanel(sessionAnswered: int, fields: seq<string>): (p: Panel)
    ensures p == LikertPanel <==> (sessionAnswered == 4 || sessionAnswered == 8) && SomeFieldFilled(fields)
    ensures p == GeneralPanel <==> sessionAnswered == 0 || sessionAnswered == 2 || sessionAnswered == 6
    ensures sessionAnswered !in {0, 2, 4, 6, 8} ==> p == SaveOnly
  {
    if sessionAnswered == 4 || sessionAnswered == 8 then
      if SomeFieldFilled(fields) then LikertPanel else SaveOnly
    else if sessionAnswered == 0 || sessionAnswered == 2 || sessionAnswered == 6 then GeneralPanel
    else SaveOnly
  }

  /** Within one session of ten answers, at most five panels are shown. */
  lemma PanelsPerSession(fieldsAt: seq<seq<string>>)
    requires |fieldsAt| == 10
    ensures |set k | 0 <= k < 10 && FeedbackPanel(k, fieldsAt[k]) != SaveOnly| <= 5
  {
    var shown := set k | 0 <= k < 10 && FeedbackPanel(k, fieldsAt[k]) != SaveOnly;
    assert shown <= {0, 2, 4, 6, 8} by {
      forall k | k in shown ensures k in {0, 2, 4, 6, 8} {
        assert FeedbackPanel(k, fieldsAt[k]) != SaveOnly;
      }
    }
    assert |{0, 2, 4, 6, 8}| == 5;
    SubsetCard(shown, {0, 2, 4, 6, 8});
  }

  lemma SubsetCard(a: set<int>, b: set<int>)
    requires a <= b
    ensures |a| <= |b|
  {
    assert b == a + (b - a);
  }

  // ---------------------------------------------------------------------------
  // handleMarkAnswered
  // ---------------------------------------------------------------------------

  /** Whether `val.trim() !== ''`, decided by the trim itself. */
  method TrimmedNonEmpty(val: string) returns (b: bool)
    ensures b <==> !AllWhitespace(val)
  {
    TrimEmptyIff(val);
    b := Trim(val) != "";
  }

  /** For each field, whether it holds a character other than whitespace (its trim is not empty). */
  function FilledFlags(fields: seq<string>): (flags: seq<bool>)
    ensures |flags| == |fields|
    ensures forall i :: 0 <= i < |fields| ==> (flags[i] <==> !AllWhitespace(fields[i]))
  {
    if fields == [] then [] else [!AllWhitespace(fields[0])] + FilledFlags(fields[1..])
  }

  /** The answered map after the forEach has visited the first `n` fields. */
  function MarkedUpTo(prev: map<nat, string>, fields: seq<string>, filled: seq<bool>, n: nat): map<nat, string>
    requires n <= |fields| == |filled|
  {
    if n == 0 then prev
    else
      var m := MarkedUpTo(prev, fields, filled, n - 1);
      if filled[n - 1] then m[n - 1 := fields[n - 1]] else m
  }

  /** The answered map after marking every field. */
  function MarkedAnswers(prev: map<nat, string>, fields: seq<string>): map<nat, string> {
    MarkedUpTo(prev, fields, FilledFlags(fields), |fields|)
  }

  /** Marking the first `n` fields records each filled one at its index and keeps every other earlier entry. */
  lemma {:induction false} MarkedUpToSpec(prev: map<nat, string>, fields: seq<string>, filled: seq<bool>, n: nat)
    requires n <= |fields| == |filled|
    ensures forall k: nat :: k in MarkedUpTo(prev, fields, filled, n) <==> k in prev || (k < n && filled[k])
    ensures forall k: nat :: k < n && filled[k] ==> MarkedUpTo(prev, fields, filled, n)[k] == fields[k]
    ensures forall k: nat :: k in prev && !(k < n && filled[k]) ==> MarkedUpTo(prev, fields, filled, n)[k] == prev[k]
  {
    if n > 0 {
      MarkedUpToSpec(prev, fields, filled, n - 1);
    }
  }

  /** handleMarkAnswered adds index to value for every non-blank field and keeps all earlier entries. */
  lemma MarkedAnswersSpec(prev: map<nat, string>, fields: seq<string>)
    ensures forall k: nat :: k in MarkedAnswers(prev, fields) <==> k in prev || (k < |fields| && Trim(fields[k]) != "")
    ensures forall k: nat :: k < |fields| && Trim(fields[k]) != "" ==> MarkedAnswers(prev, fields)[k] == fields[k]
    ensures forall k: nat :: k in prev && !(k < |fields| && Trim(fields[k]) != "") ==> MarkedAnswers(prev, fields)[k] == prev[k]
  {
    MarkedUpToSpec(prev, fields, FilledFlags(fields), |fields|);
    forall k | 0 <= k < |fields|
      ensures Trim(fields[k]) != "" <==> !AllWhitespace(fields[k])
    {
      TrimEmptyIff(fields[k]);
    }
  }

  /** The forEach of handleMarkAnswered over a copy of the previous map. */
  method MarkAnswered(prev: map<nat, string>, fields: seq<string>) returns (m: map<nat, string>)
    ensures m == MarkedAnswers(prev, fields)
  {
    ghost var filled := FilledFlags(fields);
    m := prev;
    var idx := 0;
    while idx < |fields|
      invariant 0 <= idx <= |fields|
      invariant m == MarkedUpTo(prev, fields, filled, idx)
    {
      var filledHere := TrimmedNonEmpty(fields[idx]);
      if filledHere {
        m := m[idx := fields[idx]];
      }
      idx := idx + 1;
    }
  }

  // ---------------------------------------------------------------------------
  // The game screen
  // ---------------------------------------------------------------------------

  class GameSession {
    var mode: Mode
    var hasPlayedBeiras: bool
    var prevRecStatus: RecorderStatus
    var autoStopPlayed: bool
    var timedOut: bool
    var prevTimer: int
    var prevRecCount: nat
    var saveButton: bool
    var maxRecs: int
    var loaded: bool
    var showIntro: bool
    var conceptAudioPlayed: Option<string>
    var prevQ: bool
    var prevGeneral: bool
    var prevDone: bool
    var showQuestionsFeedback: bool
    var showGeneralFeedback: bool
    var showLikertFeedback: bool
    var showCurrentProgress: bool
    var showConfirmSkip: bool
    var progressbarCounter: int
    var answeredWithoutQuestions: map<nat, string>
    /** Requests to the sound manager, the recorder and the game hook, in order. */
    var log: seq<Call>

    /** The typing demonstration is requested once, when the flag is set, and never again. */
    ghost predicate Valid()
      reads this
    {
      GroupRequests(log, "beirasBemutato") == (if hasPlayedBeiras then 1 else 0)
    }

    constructor (recStatus: RecorderStatus, answeredToday: int)
      ensures Valid()
      ensures mode == Voice && !hasPlayedBeiras && prevRecStatus == recStatus && !autoStopPlayed
      ensures !timedOut && prevTimer == 0 && prevRecCount == 0
      ensures !saveButton && maxRecs == 4 && !loaded && !showIntro && conceptAudioPlayed == None
      ensures !prevQ && !prevGeneral && !prevDone
      ensures !showQuestionsFeedback && !showGeneralFeedback && !showLikertFeedback
      ensures showCurrentProgress && !showConfirmSkip && progressbarCounter == answeredToday
      ensures answeredWithoutQuestions == map[] && log == []
    {
      mode, hasPlayedBeiras := Voice, false;
      prevRecStatus, autoStopPlayed := recStatus, false;
      timedOut, prevTimer, prevRecCount := false, 0, 0;
      saveButton, maxRecs, loaded, showIntro := false, 4, false, false;
      conceptAudioPlayed := None;
      prevQ, prevGeneral, prevDone := false, false, false;
      showQuestionsFeedback, showGeneralFeedback, showLikertFeedback := false, false, false;
      showCurrentProgress, showConfirmSkip := true, false;
      progressbarCounter := answeredToday;
      answeredWithoutQuestions := map[];
      log := [];
    }

    /** Appends calls that do not request the typing demonstration. */
    method Emit(calls: seq<Call>)
      requires Valid()
      requires forall i :: 0 <= i < |calls| ==> !(calls[i].PlayGroup? && calls[i].group == "beirasBemutato")
      modifies this`log
      ensures Valid()
      ensures log == old(log) + calls
    {
      NoGroupRequests(log, calls, "beirasBemutato");
      log := log + calls;
    }

    /** The mode effect: the first switch to typing requests the typing demonstration, once. */
    method ModeChanged(m: Mode)
      requires Valid()
      modifies this`mode, this`hasPlayedBeiras, this`log
      ensures Valid()
      ensures mode == m
      ensures m == Text && !old(hasPlayedBeiras) ==> log == old(log) + [PlayGroup("beirasBemutato", true)] && hasPlayedBeiras
      ensures !(m == Text && !old(hasPlayedBeiras)) ==> log == old(log) && hasPlayedBeiras == old(hasPlayedBeiras)
      ensures GroupRequests(log, "beirasBemutato") <= 1
    {
      mode := m;
      if m == Text && !hasPlayedBeiras {
        OneGroupRequest(log, "beirasBemutato", true);
        log := log + [PlayGroup("beirasBemutato", true)];
        hasPlayedBeiras := true;
      }
    }

    /** The recorder-status effect: a new recording re-arms the auto-stop guard; the status is remembered. */
    method RecorderStatusChanged(curr: RecorderStatus)
      modifies this`prevRecStatus, this`autoStopPlayed
      ensures prevRecStatus == curr
      ensures old(prevRecStatus) != Recording && curr == Recording ==> !autoStopPlayed
      ensures !(old(prevRecStatus) != Recording && curr == Recording) ==> autoStopPlayed == old(autoStopPlayed)
    {
      if prevRecStatus != Recording && curr == Recording {
        autoStopPlayed := false;
      }
      prevRecStatus := curr;
    }

    /** The timer effect: stop the recording when the limit is crossed, at most once until the flag clears. */
    method TimerChanged(status: RecorderStatus, now: int)
      requires Valid()
      modifies this`timedOut, this`prevTimer, this`log
      ensures Valid()
      ensures TimerRefs(timedOut, prevTimer) == AutoStopStep(TimerRefs(old(timedOut), old(prevTimer)), status, now)
      ensures log == old(log) + (if AutoStopFires(TimerRefs(old(timedOut), old(prevTimer)), status, now) then [StopRecording] else [])
    {
      if status == Recording && prevTimer < TimeLimit && now >= TimeLimit && !timedOut {
        timedOut := true;
        Emit([StopRecording]);
      }
      prevTimer := now;
    }

    /** The recordings-count effect: one prompt per new recording; the count is remembered. */
    method RecordingsChanged(curr: nat)
      requires Valid()
      modifies this`timedOut, this`prevRecCount, this`log
      ensures Valid()
      ensures prevRecCount == curr
      ensures timedOut == TimedOutAfterCount(old(timedOut), old(prevRecCount), curr)
      ensures var c := RecCountPrompt(old(timedOut), old(prevRecCount), curr);
        log == old(log) + (if c.Some? then [c.value] else [])
    {
      if curr > prevRecCount {
        if timedOut {
          Emit([PlayGroupAfter("felvetelVege", 500)]);
          timedOut := false;
        } else if prevRecCount == 0 {
          Emit([PlayGroup("biztatas", false)]);
        } else {
          Emit([PlayGroup("megerosites", false)]);
        }
      }
      prevRecCount := curr;
    }

    /** A new concept (once the screen is ready) hides the save state and allows four recordings again. */
    method ConceptChanged(hasConcept: bool, renderReady: bool)
      modifies this`loaded, this`saveButton, this`maxRecs
      ensures !loaded
      ensures hasConcept && renderReady ==> !saveButton && maxRecs == 4
      ensures !(hasConcept && renderReady) ==> saveButton == old(saveButton) && maxRecs == old(maxRecs)
    {
      loaded := false;
      if hasConcept && renderReady {
        saveButton := false;
        maxRecs := 4;
      }
    }

    /** The intro is shown whenever practice is not done. */
    method PracticeChanged(practice: PracticeValue)
      modifies this`showIntro
      ensures practice != PracticeDone ==> showIntro
      ensures practice == PracticeDone ==> showIntro == old(showIntro)
    {
      if practice != PracticeDone {
        showIntro := true;
      }
    }

    /** The concept-audio effect. */
    method ConceptAudioEffect(v: AudioView)
      requires Valid()
      modifies this`conceptAudioPlayed, this`log
      ensures Valid()
      ensures var step := ConceptAudioStep(old(conceptAudioPlayed), v);
        conceptAudioPlayed == step.0 && log == old(log) + (if step.1.Some? then [step.1.value] else [])
    {
      if AudioBlocked(v) {
        return;
      }
      var id := v.conceptId.value;
      if conceptAudioPlayed == Some(id) {
        return;
      }
      conceptAudioPlayed := Some(id);
      Emit([ConceptSequence(id)]);
    }

    /** The questions panel's effect: the "questions" clip on its rising edge, unless recording. */
    method QuestionsEffect(status: RecorderStatus, show: bool)
      requires Valid()
      modifies this`prevQ, this`log
      ensures Valid()
      ensures prevQ == show
      ensures log == old(log) + (if RisingEdge(old(prevQ), show) && status != Recording then [PlayGroup("kerdesek", false)] else [])
    {
      if show && !prevQ {
        if status != Recording {
          Emit([PlayGroup("kerdesek", false)]);
        }
      }
      prevQ := show;
    }

    /**
     * The general panel's effect: on its rising edge with fewer than nine answered,
     * a "next concept" clip of a randomly chosen group (`choice`, the draw of
     * Math.random over the three groups) at the clamped index, unless recording.
     */
    method GeneralEffect(status: RecorderStatus, show: bool, answeredToday: int, choice: nat)
      requires Valid()
      requires choice < |NextPrefixes|
      modifies this`prevGeneral, this`log
      ensures Valid()
      ensures prevGeneral == show
      ensures RisingEdge(old(prevGeneral), show) && answeredToday < 9 && status != Recording ==>
        log == old(log) + [PlayFile(NextPrefixes[choice], NextClipIndex(answeredToday))]
      ensures !(RisingEdge(old(prevGeneral), show) && answeredToday < 9 && status != Recording) ==> log == old(log)
    {
      if show && !prevGeneral && answeredToday < 9 {
        var prefix := NextPrefixes[choice];
        var idx := NextClipIndex(answeredToday);
        if status != Recording {
          Emit([PlayFile(prefix, idx)]);
        }
      }
      prevGeneral := show;
    }

    /** The exit line on the rising edge of "ten answered today", unless recording. */
    method DoneEffect(status: RecorderStatus, answeredToday: int)
      requires Valid()
      modifies this`prevDone, this`log
      ensures Valid()
      ensures prevDone == (answeredToday == 10)
      ensures log == old(log) +
        (if RisingEdge(old(prevDone), answeredToday == 10) && status != Recording then [PlayGroup("kilepesVegen", false)] else [])
    {
      var doneNow := answeredToday == 10;
      if doneNow && !prevDone {
        if status != Recording {
          Emit([PlayGroup("kilepesVegen", false)]);
        }
      }
      prevDone := doneNow;
    }

    /** Ten answered closes all three panels and returns to voice mode. */
    method DoneReset(answeredToday: int)
      modifies this`showQuestionsFeedback, this`showLikertFeedback, this`showGeneralFeedback, this`mode
      ensures answeredToday == 10 ==> !showQuestionsFeedback && !showLikertFeedback && !showGeneralFeedback && mode == Voice
      ensures answeredToday != 10 ==> unchanged(this)
    {
      if answeredToday == 10 {
        showQuestionsFeedback, showLikertFeedback, showGeneralFeedback := false, false, false;
        mode := Voice;
      }
    }

    /** The progress bar follows the day's answered count whenever the count changes. */
    method AnsweredTodayChanged(answeredToday: int)
      modifies this`progressbarCounter
      ensures progressbarCounter == answeredToday
    {
      progressbarCounter := answeredToday;
    }

    /** handleMarkAnswered, which nothing in the page calls. */
    method HandleMarkAnswered(fields: seq<string>)
      modifies this`answeredWithoutQuestions
      ensures answeredWithoutQuestions == MarkedAnswers(old(answeredWithoutQuestions), fields)
    {
      answeredWithoutQuestions := MarkAnswered(answeredWithoutQuestions, fields);
    }

    /**
     * handleFeedback: stop a running recording, then save the answer and open the
     * scheduled panel; the progress bar advances exactly when a panel opens. The
     * 100 ms delay before the schedule runs is not modelled.
     */
    method HandleFeedback(status: RecorderStatus, sessionAnswered: int, fields: seq<string>)
      requires Valid()
      modifies this`log, this`progressbarCounter, this`showLikertFeedback, this`showGeneralFeedback, this`showCurrentProgress
      ensures Valid()
      ensures var stop := if status == Recording then [StopRecording] else [];
        log == old(log) + stop + [SaveAndReset(false)]
      ensures var p := FeedbackPanel(sessionAnswered, fields);
        && progressbarCounter == old(progressbarCounter) + (if p == SaveOnly then 0 else 1)
        && showLikertFeedback == (old(showLikertFeedback) || p == LikertPanel)
        && showGeneralFeedback == (old(showGeneralFeedback) || p == GeneralPanel)
        && showCurrentProgress == (old(showCurrentProgress) && p == SaveOnly)
    {
      if status == Recording {
        Emit([StopRecording]);
      }
      if sessionAnswered == 4 || sessionAnswered == 8 {
        if exists i :: 0 <= i < |fields| && fields[i] != "" {
          progressbarCounter := progressbarCounter + 1;
          showLikertFeedback := true;
          showCurrentProgress := false;
          Emit([SaveAndReset(false)]);
        } else {
          Emit([SaveAndReset(false)]);
        }
      } else if sessionAnswered == 0 || sessionAnswered == 2 || sessionAnswered == 6 {
        showGeneralFeedback := true;
        showCurrentProgress := false;
        Emit([SaveAndReset(false)]);
        progressbarCounter := progressbarCounter + 1;
      } else {
        Emit([SaveAndReset(false)]);
      }
    }

    /**
     * dummySave, which no button of the page is wired to (the save buttons call
     * handleFeedback directly). With room for more fields and recordings it
     * opens the questions (first two answers of the day) and shows the save
     * state; otherwise it runs handleFeedback, which sees the same recorder
     * status and so asks the recorder to stop a second time.
     */
    method DummySave(status: RecorderStatus, inputFieldsCount: int, recordings: nat, answeredToday: int,
                     sessionAnswered: int, fields: seq<string>)
      requires Valid()
      modifies this`log, this`showQuestionsFeedback, this`saveButton, this`maxRecs,
               this`progressbarCounter, this`showLikertFeedback, this`showGeneralFeedback, this`showCurrentProgress
      ensures Valid()
      ensures inputFieldsCount < 10 && recordings < 4 ==>
        && log == old(log) + (if status == Recording then [StopRecording] else [])
        && showQuestionsFeedback == (old(showQuestionsFeedback) || answeredToday == 0 || answeredToday == 1)
        && saveButton && maxRecs == 4
        && progressbarCounter == old(progressbarCounter)
      ensures !(inputFieldsCount < 10 && recordings < 4) ==>
        && log == old(log) + (if status == Recording then [StopRecording, StopRecording] else []) + [SaveAndReset(false)]
        && showQuestionsFeedback == old(showQuestionsFeedback)
        && saveButton == old(saveButton) && maxRecs == old(maxRecs)
        && progressbarCounter == old(progressbarCounter) + (if FeedbackPanel(sessionAnswered, fields) == SaveOnly then 0 else 1)
    {
      if status == Recording {
        Emit([StopRecording]);
      }
      if inputFieldsCount < 10 && recordings < 4 {
        if answeredToday == 0 || answeredToday == 1 {
          showQuestionsFeedback := true;
        }
        saveButton := true;
        maxRecs := 4;
      } else {
        HandleFeedback(status, sessionAnswered, fields);
      }
    }

    /** The skip button: stop a running recording (without waiting) and ask for confirmation. */
    method HandleShowConfirmSkip(status: RecorderStatus)
      requires Valid()
      modifies this`log, this`showConfirmSkip
      ensures Valid()
      ensures showConfirmSkip
      ensures log == old(log) + (if status == Recording then [StopRecording] else [])
    {
      if status == Recording {
        Emit([StopRecording]);
      }
      showConfirmSkip := true;
    }

    /** Confirmed skip: save the concept as skipped and close the confirmation. */
    method HandleSkip()
      requires Valid()
      modifies this`log, this`showConfirmSkip
      ensures Valid()
      ensures !showConfirmSkip
      ensures log == old(log) + [SaveAndReset(true)]
    {
      Emit([SaveAndReset(true)]);
      showConfirmSkip := false;
    }
  }
}
