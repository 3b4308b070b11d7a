# Word-teaching game: verified model of the rule logic

The system is a browser front end for a children's word-teaching game with a
Hungarian interface. A parent records or types what the child says about a concept,
and a voice character prompts them along. The front end runs on a hosted
authentication, document-database and file-storage backend.

Most of the front end is layout. This project models the parts that carry rules:

- the effects and handlers of the game screens and the practice screens, for both
  the dashboard and the experimenter flow. These cover:
  - the two-minute auto-stop;
  - the prompt after each recording;
  - concept audio once per concept;
  - clips on the rising edge of each feedback panel;
  - the feedback schedule;
  - answer marking.
- the onboarding overlay's step machine and its cut-out and tooltip arithmetic;
- the help overlay's tooltip placement;
- the recording controls:
  - the `mm:ss` label;
  - the start/stop/delete handlers;
  - the per-recording popup map.
- answer-string processing and the history list's sort and filter;
- the form pages' validation chains and record transforms: registration, the data
  form, password change, personal data and participant data;
- the greeting-once logic of the dashboard;
- the account-deletion update builder and its ordering.

Each React component whose effects and handlers update state becomes a Dafny
`class`:

- refs and state are fields;
- every effect or handler is a method with a `modifies` clause;
- every request into code that is not part of this model is appended to a `log`
  field. That code is the sound manager, the recorder, the game hooks, the router
  and the backend.

Where an effect has "at most once" or "only on a rising edge" behaviour, a pure
step function states that behaviour. The method is proved against the step function,
and trace functions run the step over a sequence of renders so the property can be
proved as a lemma. The pure parts are functions with lemmas about them:

- string processing;
- validation;
- sorting;
- geometry;
- the deletion update.

Modules follow the source files, one module per file:

| Module | Source file |
|---|---|
| `DashboardGame` | app/dashboard/game/page.tsx |
| `DashboardPractice` | …/components/Practice.tsx |
| `PracticeOverlay` | …/components/PracticeOverlay.tsx |
| `DashboardRecordingControls` | …/components/RecordingControls.tsx |
| `OverlayHelp` | …/components/OverlayHelp.tsx |
| `ExperimenterGame` | app/experimenter/game/page.tsx |
| `ExperimenterPractice` | the experimenter practice component |
| `ExperimenterRecordingControls` | the experimenter recording controls |
| `DashboardGreeting` | app/dashboard/page.tsx |
| `History` | the history page |
| `AnsweredConcepts` | the history page's answer component |
| `Register` | the register page |
| `DataForm` | the register page's data form |
| `PasswordChange` | the password-change page |
| `Personal` | the personal-data page |
| `ParticipantData` | the participant-data page |
| `DeleteAccount` | the delete-account page |

Shared pieces live in `Common`:

- an `Option` datatype;
- JavaScript's `trim`, `split`, `indexOf`, `replace`, `String(n)` and `padStart`, over `seq<char>`;
- the recorder status, the practice value and the mode.

The `Requests` module in the same file holds the shared request log.

Where the design description and the code disagree, the model follows the code:

- The auto-stop fires when the timer crosses 119 s, not 120 s
  (app/dashboard/game/page.tsx:163-168).
- The auto-stop is not guarded per recording. Its flag is cleared only when the
  "recording over" prompt is played. The auto-stop guard that a new recording
  re-arms is never read.
- The last onboarding tooltip is clamped to the viewport, not to the content
  container. On the near side it is not clamped at all (see Findings).
  `PracticeOverlay.TooltipPosition` follows the code.
- On the experimenter game page a confirmed skip calls the save-and-reset hook
  without the skip flag (app/experimenter/game/page.tsx:295-298), while the
  dashboard passes it (app/dashboard/game/page.tsx:518-521). The hook is not part
  of this model, so whether the experimenter page means to record skips as answers
  cannot be told. `ExperimenterGame.ExperimenterScreen.HandleSkip` follows the code.
- On both game pages the save buttons call `handleFeedback` directly
  (app/dashboard/game/page.tsx:1221, app/experimenter/game/page.tsx:822). The
  `dummySave` handlers, which would open the questions and show the save state
  first, are passed to no button. They are modelled as written.

## Model

| member | source | states |
|---|---|---|
| DashboardGame.AutoStopFires | app/dashboard/game/page.tsx:163-168 | the auto-stop condition; stated by AutoStopStep and AutoStopAtMostOnce |
| DashboardGame.AutoStopStep | app/dashboard/game/page.tsx:158-175 | the timer ref always takes the new value; timedOut becomes set exactly when it was set or the stop fires (recording, timer crossing 119 from below, not timed out) |
| DashboardGame.AutoStopAtMostOnce | app/dashboard/game/page.tsx:158-175 | over any sequence of renders without a clearing, the stop fires at most once, never while timedOut is set, leaves timedOut set, needs a recording render at or past 119, and the last timer value is remembered |
| DashboardGame.RecCountPrompt | app/dashboard/game/page.tsx:184-203 | a prompt exactly when the count grew: "felvetelVege" after 500 ms iff timed out, else "biztatas" iff the previous count was 0, else "megerosites" |
| DashboardGame.TimedOutAfterCount | app/dashboard/game/page.tsx:188-192 | the time-out flag survives exactly when it was set and the count did not grow |
| DashboardGame.TimeoutThenRecordingOver | app/dashboard/game/page.tsx:158-203 | an auto-stop followed by the new recording always yields the "recording over" clip and clears the flag |
| DashboardGame.ConceptAudioStep | app/dashboard/game/page.tsx:238-274 | the sequence (intro line, then the concept) is requested exactly when no blocking condition holds and the ref does not already hold this concept id; the ref then holds it |
| DashboardGame.ConceptAudioOncePerConcept | app/dashboard/game/page.tsx:238-274 | over renders showing one concept the audio is requested at most once, never if already played for that id, and only as that concept's sequence |
| DashboardGame.ConceptAudioNeverWhenBlocked | app/dashboard/game/page.tsx:239-249 | renders that are all blocked (practice not done, a panel open, ten answered, no concept, recording) request nothing and leave the ref unchanged |
| DashboardGame.RisingEdges | app/dashboard/game/page.tsx:279-338 | the number of rising edges along a flag's values never exceeds the number of values |
| DashboardGame.HeldOpenFiresOnce | app/dashboard/game/page.tsx:279-338 | while a panel stays open its clip fires at most once, and not at all if it was already open |
| DashboardGame.ClosedNeverFires | app/dashboard/game/page.tsx:279-338 | a panel that is never open never fires its clip |
| DashboardGame.NextClipIndex | app/dashboard/game/page.tsx:313 | the clip index is the answered count clamped to [0, 9] |
| DashboardGame.FeedbackPanel | app/dashboard/game/page.tsx:482-505 | Likert panel iff answer 4 or 8 and some field non-empty; general panel iff 0, 2 or 6; otherwise save only |
| DashboardGame.PanelsPerSession | app/dashboard/game/page.tsx:482-505 | among the ten answers of a session at most five open a panel |
| DashboardGame.TrimmedNonEmpty | app/dashboard/game/page.tsx:433 | `val.trim() !== ''` holds exactly when the value has a character other than whitespace |
| DashboardGame.FilledFlags | app/dashboard/game/page.tsx:432-436 | one flag per field, true exactly for fields that are not all whitespace |
| DashboardGame.MarkedUpToSpec | app/dashboard/game/page.tsx:432-436 | after n fields of the forEach, exactly the earlier keys and the filled indices below n are present, filled ones carry the field, others keep their old value |
| DashboardGame.MarkedAnswersSpec | app/dashboard/game/page.tsx:429-439 | handleMarkAnswered adds index to value for every field whose trim is non-empty and keeps every other earlier entry |
| DashboardGame.MarkAnswered | app/dashboard/game/page.tsx:430-438 | the forEach over a copy of the previous map computes the marked answers |
| DashboardGame.GameSession.constructor | app/dashboard/game/page.tsx:53-142 | initial state: voice mode, four recordings allowed, all panels closed, progress at the day's count, refs cleared, empty log |
| DashboardGame.GameSession.ModeChanged | app/dashboard/game/page.tsx:78-85 | the first switch to typing requests the typing demonstration and sets the ref; it is requested at most once in the whole log |
| DashboardGame.GameSession.RecorderStatusChanged | app/dashboard/game/page.tsx:145-155 | a transition into recording re-arms the auto-stop guard; the status is always remembered |
| DashboardGame.GameSession.TimerChanged | app/dashboard/game/page.tsx:158-175 | the refs follow AutoStopStep and a stop is appended exactly when AutoStopFires |
| DashboardGame.GameSession.RecordingsChanged | app/dashboard/game/page.tsx:184-203 | the count is remembered, the flag follows TimedOutAfterCount and the prompt of RecCountPrompt is appended |
| DashboardGame.GameSession.ConceptChanged | app/dashboard/game/page.tsx:206-221 | the concept is hidden; a ready concept resets the save state and allows four recordings |
| DashboardGame.GameSession.PracticeChanged | app/dashboard/game/page.tsx:223-227 | the intro is shown whenever practice is not done |
| DashboardGame.GameSession.ConceptAudioEffect | app/dashboard/game/page.tsx:238-274 | ref and log follow ConceptAudioStep |
| DashboardGame.GameSession.QuestionsEffect | app/dashboard/game/page.tsx:279-288 | "kerdesek" is requested exactly on the rising edge of the questions panel when not recording; the ref takes the new value |
| DashboardGame.GameSession.GeneralEffect | app/dashboard/game/page.tsx:302-325 | on the rising edge of the general panel with fewer than nine answered and not recording, the drawn group's clip at the clamped index is requested; otherwise nothing |
| DashboardGame.GameSession.DoneEffect | app/dashboard/game/page.tsx:329-338 | the exit line is requested exactly on the rising edge to ten answered when not recording |
| DashboardGame.GameSession.AnsweredTodayChanged | app/dashboard/game/page.tsx:340-342 | the progress bar takes the day's answered count |
| DashboardGame.GameSession.DoneReset | app/dashboard/game/page.tsx:596-603 | ten answered closes all three panels and returns to voice mode; otherwise nothing changes |
| DashboardGame.GameSession.HandleMarkAnswered | app/dashboard/game/page.tsx:429-439 | as written, uncalled: the answered map becomes the marked answers of the current fields |
| DashboardGame.GameSession.HandleFeedback | app/dashboard/game/page.tsx:477-507 | a running recording is stopped, the answer is saved, the scheduled panel opens, and the progress bar advances exactly when a panel opens |
| DashboardGame.GameSession.DummySave | app/dashboard/game/page.tsx:442-475 | as written, wired to no button: with room, it opens the questions for the first two answers of the day, shows the save state and allows four recordings; without room, it runs handleFeedback, so a running recording is asked to stop twice |
| DashboardGame.GameSession.HandleShowConfirmSkip | app/dashboard/game/page.tsx:509-516 | a running recording is stopped and the confirmation shown |
| DashboardGame.GameSession.HandleSkip | app/dashboard/game/page.tsx:518-521 | the concept is saved as skipped and the confirmation closed |
| DashboardPractice.PracticeWord | app/dashboard/game/components/Practice.tsx:749-755 | the word for each practice variant; none for any other value |
| DashboardPractice.RenderedWord | app/dashboard/game/components/Practice.tsx:377-381 | whenever the component renders it has a word, it never renders when hidden, and the three words differ |
| DashboardPractice.PracticePrompt | app/dashboard/game/components/Practice.tsx:227-242 | "biztatas" iff the count grew to 1, "megerosites" iff it grew to 2, nothing otherwise |
| DashboardPractice.KerdesekIndex | app/dashboard/game/components/Practice.tsx:253 | clip 0 exactly with no recordings, otherwise clip 1 |
| DashboardPractice.NewStep | app/dashboard/game/components/Practice.tsx:415-416 | a value is taken as is; an updater is applied to the step held in the ref |
| DashboardPractice.PracticeScreen.constructor | app/dashboard/game/components/Practice.tsx:104-147 | initial state: overlay shown, the step ref at -1, the demonstration not played, empty log |
| DashboardPractice.PracticeScreen.OnStepChange | app/dashboard/game/components/Practice.tsx:414-433 | "felvetelBemutato" is requested only on entering step 1 from another step when never played; the ref and the overlay step both take the new step |
| DashboardPractice.PracticeScreen.OnOverlayClose | app/dashboard/game/components/Practice.tsx:434-437 | the overlay is hidden and the save state shown |
| DashboardPractice.PracticeScreen.QuestionsOpenedEffect | app/dashboard/game/components/Practice.tsx:212-223 | an open questions panel snapshots the recordings count and re-arms the prompt flags |
| DashboardPractice.PracticeScreen.RecordingsChanged | app/dashboard/game/components/Practice.tsx:227-242 | the prompt of PracticePrompt is appended and the count remembered |
| DashboardPractice.PracticeScreen.QuestionsClipEffect | app/dashboard/game/components/Practice.tsx:251-258 | while the questions panel is shown the "kerdesek" clip at KerdesekIndex is requested |
| DashboardPractice.PracticeScreen.ConceptChanged | app/dashboard/game/components/Practice.tsx:261-274 | a ready concept hides the save state and allows two recordings |
| DashboardPractice.PracticeScreen.PracticeChanged | app/dashboard/game/components/Practice.tsx:280-285 | while practice is not done the intro and the overlay are shown |
| DashboardPractice.PracticeScreen.DummySave | app/dashboard/game/components/Practice.tsx:166-196 | acts only with fewer than 10 fields and 4 recordings; for answer 0 or 1 it hides the overlay and jumps to step 6; it always shows the save state and allows four recordings when it acts |
| DashboardPractice.PracticeScreen.HandleShowConfirmSkip | app/dashboard/game/components/Practice.tsx:131-138 | a running recording is stopped and the confirmation shown |
| DashboardPractice.PracticeScreen.HandleEndPractice | app/dashboard/game/components/Practice.tsx:150-155 | the practice is reset, its feedback shown and the closing line requested |
| DashboardPractice.PracticeScreen.HandleClosePracticeFeedback | app/dashboard/game/components/Practice.tsx:157-163 | practice is reported done, the feedback hidden and the overlay shown again |
| DashboardPractice.PracticeScreen.ConfirmSkip | app/dashboard/game/components/Practice.tsx:530-537 | the confirmation always closes; practice ends only when the save state is shown |
| DashboardPractice.PracticeScreen.KeyboardClicked | app/dashboard/game/components/Practice.tsx:1245-1250 | typing mode and "beirasBemutato" only when the save state is shown; otherwise nothing |
| DashboardPractice.PracticeScreen.HandleCloseQuestionsFeedback | app/dashboard/game/components/Practice.tsx:125-128 | the questions panel closes and the overlay is shown again |
| DashboardPractice.PracticeScreen.DoneReset | app/dashboard/game/components/Practice.tsx:368-375 | ten answered closes the three panels and returns to voice mode |
| PracticeOverlay.FindIndex | app/dashboard/game/components/PracticeOverlay.tsx:154-155 | findIndex: -1 exactly when no id matches, else the first matching position |
| PracticeOverlay.RecordStepIndex | app/dashboard/game/components/PracticeOverlay.tsx:154 | the record step is at index 1 |
| PracticeOverlay.LastStepIndex | app/dashboard/game/components/PracticeOverlay.tsx:155 | the last step "next" is at index 6 |
| PracticeOverlay.ClampStep | app/dashboard/game/components/PracticeOverlay.tsx:159 | the rendered step is the current step clamped to [0, 6] |
| PracticeOverlay.NextButton | app/dashboard/game/components/PracticeOverlay.tsx:338-346 | on the last clamped step it closes without changing the step; on the record step it advances by 2; otherwise by 1 |
| PracticeOverlay.ButtonLabel | app/dashboard/game/components/PracticeOverlay.tsx:349 | "Bezárás" exactly when the current step is the last, else "Tovább" |
| PracticeOverlay.LabelMatchesAction | app/dashboard/game/components/PracticeOverlay.tsx:339-349 | on every step in range the label reads "Bezárás" exactly when the click closes |
| PracticeOverlay.ButtonKeepsStepInRange | app/dashboard/game/components/PracticeOverlay.tsx:339-346 | from any step in range a click closes or moves to another step in range, never onto the voice-track step |
| PracticeOverlay.ClickPathReachesLast | app/dashboard/game/components/PracticeOverlay.tsx:338-347 | from every step, clicking visits strictly later steps, never voice-track, and reaches the last step, where the click closes |
| PracticeOverlay.ClickThrough | app/dashboard/game/components/PracticeOverlay.tsx:339-346 | clicking from the first step visits steps 1, 3, 4, 5, 6 and then closes |
| PracticeOverlay.Overlay.constructor | app/dashboard/game/components/PracticeOverlay.tsx:143-157 | the first render holds the parent's `currentStep` prop, not closed, with an empty log |
| PracticeOverlay.Overlay.StepPropChanged | app/dashboard/game/components/PracticeOverlay.tsx:148-156 | a render with a new `currentStep` prop, such as the parent's jump to the questions step (app/dashboard/game/components/Practice.tsx:173), moves the overlay to that step |
| PracticeOverlay.Overlay.Click | app/dashboard/game/components/PracticeOverlay.tsx:338-346 | the step and the close request follow NextButton |
| PracticeOverlay.Overlay.AutoAdvanceEffect | app/dashboard/game/components/PracticeOverlay.tsx:185-190 | shown, on the record step and with a recording: the demonstration is requested and the step advances by exactly 1; otherwise nothing |
| PracticeOverlay.Cutout | app/dashboard/game/components/PracticeOverlay.tsx:226-230 | each cut-out edge is the element's edge plus that step's adjustment |
| PracticeOverlay.CutoutEnclosesItem | app/dashboard/game/components/PracticeOverlay.tsx:35-141 | every cut-out except the progress bar's and the voice track's contains the whole element |
| PracticeOverlay.ClampInsideBounds | app/dashboard/game/components/PracticeOverlay.tsx:279-280 | the clamped coordinate is at least the container's start, fits inside when the container is wide enough, and equals the raw value when that already fits |
| PracticeOverlay.LastClampAsWritten | app/dashboard/game/components/PracticeOverlay.tsx:273-276 | the last step's clamp as written, with a one-argument `Math.max`; stated by LastClampAsWrittenBounds and LastClampAsWrittenLeavesScreen |
| PracticeOverlay.LastClampAsWrittenBounds | app/dashboard/game/components/PracticeOverlay.tsx:273-276 | as written, the last tooltip is bounded on the far side only |
| PracticeOverlay.LastClampAsWrittenLeavesScreen | app/dashboard/game/components/PracticeOverlay.tsx:273-276 | a raw position 50 px off the screen stays off the screen |
| PracticeOverlay.LastClamp | app/dashboard/game/components/PracticeOverlay.tsx:273-276 | the last step's clamp with the near-side bound of the other steps; stated by LastClampBounds |
| PracticeOverlay.LastClampBounds | app/dashboard/game/components/PracticeOverlay.tsx:273-276 | with the near-side bound added, the last tooltip stays inside a viewport large enough for it |
| PracticeOverlay.TooltipPosition | app/dashboard/game/components/PracticeOverlay.tsx:261-283 | before the tooltip is measured, the element's corner plus the step's offsets; after, kept inside the container on every step but the last; on the last step kept from overflowing the viewport's far sides only, and left at the raw position when that does not overflow |
| PracticeOverlay.TooltipPositionLeavesScreen | app/dashboard/game/components/PracticeOverlay.tsx:273-276 | on the last step a 200 px tooltip whose raw left is -50 is placed at -50 in an 800 px viewport |
| PracticeOverlay.TooltipPositionIntended | app/dashboard/game/components/PracticeOverlay.tsx:261-283 | equal to TooltipPosition except on the measured last step, where the tooltip stays inside a viewport large enough for it on all four sides |
| DashboardRecordingControls.FormatTime | app/dashboard/game/components/RecordingControls.tsx:81-88 | formatTime; its shape is stated by FormatTimeShape and its meaning by FormatTimeRoundTrip |
| DashboardRecordingControls.ParseTime | app/dashboard/game/components/RecordingControls.tsx:81-88 | the reference reader of a label, the inverse FormatTimeRoundTrip uses |
| DashboardRecordingControls.SplitAtSeparator | app/dashboard/game/components/RecordingControls.tsx:84-87 | splitting "a:b" where neither side holds ':' gives exactly [a, b] |
| DashboardRecordingControls.PaddedValue | app/dashboard/game/components/RecordingControls.tsx:84-87 | padStart(2, '0') of a number below 100 has two digits and reads back as the number |
| DashboardRecordingControls.FormatTimeShape | app/dashboard/game/components/RecordingControls.tsx:81-88 | below 6000 s the label is exactly five characters "mm:ss" with the minutes and seconds of t |
| DashboardRecordingControls.DigitsHaveNoColon | app/dashboard/game/components/RecordingControls.tsx:84-87 | a numeral holds no ':' |
| DashboardRecordingControls.ParseFields | app/dashboard/game/components/RecordingControls.tsx:81-88 | two digit fields around ':' with seconds below 60 read back as minutes * 60 + seconds |
| DashboardRecordingControls.FormatTimeRoundTrip | app/dashboard/game/components/RecordingControls.tsx:81-88 | every label parses back to the number of seconds it was made from |
| DashboardRecordingControls.RowIds | app/dashboard/game/components/RecordingControls.tsx:165 | only the first recording row carries the id "voice-track" |
| DashboardRecordingControls.IndexAfterDelete | app/dashboard/game/components/RecordingControls.tsx:71-73 | one back, never below 0, with more than one recording; 0 otherwise |
| DashboardRecordingControls.Controls.constructor | app/dashboard/game/components/RecordingControls.tsx:42-47 | row 0, canRecordMore equal to recordings below the maximum, no popup, start enabled |
| DashboardRecordingControls.Controls.PropsChanged | app/dashboard/game/components/RecordingControls.tsx:49-51 | canRecordMore always equals recordings.length < maxRecordings |
| DashboardRecordingControls.Controls.ClickStart | app/dashboard/game/components/RecordingControls.tsx:53-56 | an enabled start silences all prompt audio before starting; a disabled one does nothing |
| DashboardRecordingControls.Controls.ClickStop | app/dashboard/game/components/RecordingControls.tsx:58-64 | the stop is requested, one more answer is awaited, and the start button is left as it was until the recorder answers |
| DashboardRecordingControls.Controls.StopSettled | app/dashboard/game/components/RecordingControls.tsx:65-66 | each answered stop, and only an answered one, locks start and starts its own 1000 ms timer |
| DashboardRecordingControls.SecondStopLocksAgain | app/dashboard/game/components/RecordingControls.tsx:58-66 | two stops answered one after the other, with the first timer firing in between, leave start locked |
| DashboardRecordingControls.Controls.EnableTimerFired | app/dashboard/game/components/RecordingControls.tsx:66 | a pending re-enable timer unlocks start |
| DashboardRecordingControls.Controls.ShowDeletePopup | app/dashboard/game/components/RecordingControls.tsx:77-79 | the shared popup opens |
| DashboardRecordingControls.Controls.CloseDeletePopup | app/dashboard/game/components/RecordingControls.tsx:226-230 | the shared popup closes |
| DashboardRecordingControls.Controls.ConfirmDelete | app/dashboard/game/components/RecordingControls.tsx:69-75 | the recording is deleted, the row index follows IndexAfterDelete and the popup closes; `rec` may be any row, because every row's popup reads the one shared flag (RecordingControls.tsx:226-235) |
| ExperimenterRecordingControls.TimerLabel | app/experimenter/game/components/RecordingControls.tsx:74-81 | the same label as on the dashboard: two zero-padded fields joined by ':' that read back as the seconds |
| ExperimenterRecordingControls.PopupShown | app/experimenter/game/components/RecordingControls.tsx:212 | a popup is shown exactly for an id explicitly set to true |
| ExperimenterRecordingControls.Controls.constructor | app/experimenter/game/components/RecordingControls.tsx:42-48 | empty popup map, canRecordMore equal to recordings below the maximum, start enabled |
| ExperimenterRecordingControls.Controls.PropsChanged | app/experimenter/game/components/RecordingControls.tsx:50-52 | canRecordMore always equals recordings.length < maxRecordings |
| ExperimenterRecordingControls.Controls.ClickStart | app/experimenter/game/components/RecordingControls.tsx:54-57 | an enabled start silences all prompt audio before starting; start is disabled when it cannot record or is locked |
| ExperimenterRecordingControls.Controls.ClickStop | app/experimenter/game/components/RecordingControls.tsx:59-63 | the stop is requested without waiting, start is locked at once and a 1000 ms timer started |
| ExperimenterRecordingControls.Controls.EnableTimerFired | app/experimenter/game/components/RecordingControls.tsx:62 | a pending re-enable timer unlocks start |
| ExperimenterRecordingControls.Controls.ShowDeletePopup | app/experimenter/game/components/RecordingControls.tsx:70-72 | only that id's flag becomes true; every other key is unchanged |
| ExperimenterRecordingControls.Controls.CloseDeletePopup | app/experimenter/game/components/RecordingControls.tsx:213 | only that id's flag becomes false; every other key is unchanged |
| ExperimenterRecordingControls.Controls.ConfirmDelete | app/experimenter/game/components/RecordingControls.tsx:65-68 | the recording is deleted and then only that id's flag becomes false |
| OverlayHelp.Anchor | app/dashboard/game/components/OverlayHelp.tsx:79-96 | below: (bottom + 10, left + width / 2); right: (middle - 25, right + 10); left: (middle - 25, left - 260); otherwise (top + 10, left + 10) |
| OverlayHelp.ClampAxis | app/dashboard/game/components/OverlayHelp.tsx:98-110 | the clamp of one coordinate; stated by ClampAxisBounds |
| OverlayHelp.ClampAxisBounds | app/dashboard/game/components/OverlayHelp.tsx:98-110 | the clamped coordinate is never negative, fits when the viewport is at least the tooltip plus 10 px, and a coordinate that fits is kept |
| OverlayHelp.TooltipInsideViewport | app/dashboard/game/components/OverlayHelp.tsx:98-110 | top is at least 0 and top + 50 at most H when H ≥ 60; left likewise with 250 and W ≥ 260 |
| OverlayHelp.Place | app/dashboard/game/components/OverlayHelp.tsx:74-112 | a placed tooltip keeps the item's id and side, is clamped from its anchor, and is visible exactly when the element's bottom is below 0 and its top above the viewport's height |
| OverlayHelp.FoundIndices | app/dashboard/game/components/OverlayHelp.tsx:69-72 | exactly the indices of items whose element was found, increasing |
| OverlayHelp.Positions | app/dashboard/game/components/OverlayHelp.tsx:69-120 | computePositions; stated by PositionsKeepOrder and PositionsInsideViewport |
| OverlayHelp.PositionsKeepOrder | app/dashboard/game/components/OverlayHelp.tsx:69-120 | the output holds exactly the found items, each placed from its own rectangle, in item order |
| OverlayHelp.PositionsInsideViewport | app/dashboard/game/components/OverlayHelp.tsx:98-120 | the computed top and left of every placed tooltip keep a 250 by 50 px box inside a viewport of at least 260 by 60 px |
| OverlayHelp.TooltipText | app/dashboard/game/components/OverlayHelp.tsx:177-181 | in typing mode the record button and the keyboard toggle show their alternative text; everything else shows its text |
| OverlayHelp.TooltipTextDefined | app/dashboard/game/components/OverlayHelp.tsx:8-48 | every item has a text in both modes; exactly the two switched items carry an alternative |
| OverlayHelp.FindItem | app/dashboard/game/components/OverlayHelp.tsx:154 | find by id returns an item with that id, and for the overlay's unique ids the item itself |
| OverlayHelp.OwnTextShown | app/dashboard/game/components/OverlayHelp.tsx:154-181 | a tooltip placed for one of the overlay's items shows that item's text in either mode |
| OverlayHelp.Rendered | app/dashboard/game/components/OverlayHelp.tsx:153-185 | never more tooltips drawn than placed |
| OverlayHelp.RenderedSpec | app/dashboard/game/components/OverlayHelp.tsx:153-185 | every drawn tooltip is a visible placed one with its item's text, and every visible placed one with a text is drawn |
| ExperimenterGame.FetchPseudoUID | app/experimenter/game/page.tsx:61-68 | a non-empty stored id is used; otherwise the page returns to the experimenter landing page |
| ExperimenterGame.GameFindsParticipantId | app/experimenter/game/page.tsx:61-68 | after the participant data page's mount effect, the game page finds the same id and stays |
| ExperimenterGame.EndLine | app/experimenter/game/page.tsx:116-121 | "experimentVegen" exactly when practice is done and ten are answered |
| ExperimenterGame.ConceptAudio | app/experimenter/game/page.tsx:124-156 | for a ready concept the first of the day gets the intro sequence once, guarded by the ref; later concepts below ten get the concept clip only; nothing otherwise |
| ExperimenterGame.FirstSequences | app/experimenter/game/page.tsx:139-144 | the count of first-concept sequences in a log |
| ExperimenterGame.FirstSequenceOncePerVisit | app/experimenter/game/page.tsx:124-156 | within one visit the first-concept sequence is requested at most once, and never once the ref is set |
| ExperimenterGame.NoConceptAudioAtTen | app/experimenter/game/page.tsx:145 | once ten concepts are answered no concept audio is requested |
| ExperimenterGame.EndLineExcludesConceptAudio | app/experimenter/game/page.tsx:116-156 | the closing line and a concept clip never come from the same screen state |
| ExperimenterGame.MarkFields | app/experimenter/game/page.tsx:246-252 | the field count is kept; a field gets the blank appended exactly when it equals a marked value; others are unchanged |
| ExperimenterGame.MarkedAfterMarkAnswered | app/experimenter/game/page.tsx:193-252 | marking after handleMarkAnswered appends the blank to every non-blank field |
| ExperimenterGame.MarkFieldsSettles | app/experimenter/game/page.tsx:246-252 | when no marked value is another one plus the blank, a second run over its own output changes nothing |
| ExperimenterGame.SaveCalls | app/experimenter/game/page.tsx:206-244 | the requests of dummySave; stated by SaveCallsSpec |
| ExperimenterGame.SaveCallsSpec | app/experimenter/game/page.tsx:206-244 | "kerdesek" is requested once exactly for answers 0 and 1; the answer is saved exactly when there is no room; never as skipped |
| ExperimenterGame.ExperimenterScreen.constructor | app/experimenter/game/page.tsx:56-110 | empty id, ref unset, four recordings allowed, panels closed, empty log |
| ExperimenterGame.ExperimenterScreen.Mount | app/experimenter/game/page.tsx:61-68 | the id and the log follow FetchPseudoUID |
| ExperimenterGame.ExperimenterScreen.ExperimentEndEffect | app/experimenter/game/page.tsx:116-121 | the request of EndLine is appended |
| ExperimenterGame.ExperimenterScreen.ConceptEffect | app/experimenter/game/page.tsx:124-156 | ref and log follow ConceptAudio; a ready concept resets the save state to four recordings; before practice is done nothing is hidden |
| ExperimenterGame.ExperimenterScreen.AnsweredCountChanged | app/experimenter/game/page.tsx:177-179 | the progress bar takes the answered count |
| ExperimenterGame.ExperimenterScreen.HandleMarkAnswered | app/experimenter/game/page.tsx:193-203 | as written, called only by dummySave: the answered map becomes the marked answers of the current fields |
| ExperimenterGame.ExperimenterScreen.FieldMarkingEffect | app/experimenter/game/page.tsx:246-252 | the fields become MarkFields of the answered map's values |
| ExperimenterGame.ExperimenterScreen.HandleFeedback | app/experimenter/game/page.tsx:254-284 | the marked answers and the questions are cleared, the recorder is stopped, the answer saved, the scheduled panel opened, and the progress bar advanced exactly when a panel opens |
| ExperimenterGame.ExperimenterScreen.DummySave | app/experimenter/game/page.tsx:206-244 | as written, wired to no button: the log follows SaveCalls; with room below MAX_FIELDS and 4 recordings it shows the save state with four recordings and the marked answers; otherwise it runs handleFeedback |
| ExperimenterGame.ExperimenterScreen.OpenQuestions | app/experimenter/game/page.tsx:207-216 | the first part of dummySave: the questions open, the fields are marked, a running recording is stopped, and "kerdesek" is requested for answers 0 and 1 |
| ExperimenterGame.ExperimenterScreen.HandleShowConfirmSkip | app/experimenter/game/page.tsx:286-293 | a running recording is stopped and the confirmation shown |
| ExperimenterGame.ExperimenterScreen.HandleSkip | app/experimenter/game/page.tsx:295-298 | the concept is saved without the skip flag, as an ordinary answer, and the confirmation closed |
| ExperimenterPractice.Step | app/experimenter/game/components/Practice.tsx:114-235 | per event: a ready concept resets the save state to two recordings; a save stops a running recording and requests "kerdesek", and with room shows the save state with four; a confirmed skip ends practice only when the save state is shown; ten answered resets to typing; not done shows the intro |
| ExperimenterPractice.RunKeepsInv | app/experimenter/game/components/Practice.tsx:114-235 | the screen invariant holds after mounting and after any sequence of events |
| ExperimenterPractice.RunResetsBeforeDone | app/experimenter/game/components/Practice.tsx:232-235 | whatever the events, practice is reported done only right after the round was reset |
| ExperimenterPractice.SkipNeedsSaveState | app/experimenter/game/components/Practice.tsx:326-333 | without a save that shows the save state and without the end-practice button, a confirmed skip never ends practice |
| ExperimenterPractice.Saves | app/experimenter/game/components/Practice.tsx:156-185 | the number of save events, never more than the events |
| ExperimenterPractice.StepQuestionsClip | app/experimenter/game/components/Practice.tsx:161 | one event requests "kerdesek" exactly when it is a save |
| ExperimenterPractice.QuestionsClipPerSave | app/experimenter/game/components/Practice.tsx:156-185 | over any events "kerdesek" is requested exactly once per save |
| ExperimenterPractice.IntroWhenRendered | app/experimenter/game/components/Practice.tsx:133-137 | whenever the component renders (a practice variant and shown), the practice effect has asked for the intro |
| ExperimenterPractice.PracticeComponent.constructor | app/experimenter/game/components/Practice.tsx:40-53 | two recordings allowed, no save state, intro hidden, empty log |
| ExperimenterPractice.PracticeComponent.Mount | app/experimenter/game/components/Practice.tsx:56-63 | the same session-storage effect as the game screen |
| ExperimenterPractice.PracticeComponent.ConceptEffect | app/experimenter/game/components/Practice.tsx:114-127 | the state follows Step for a concept event |
| ExperimenterPractice.PracticeComponent.DummySave | app/experimenter/game/components/Practice.tsx:156-185 | the state and log follow Step for a save |
| ExperimenterPractice.PracticeComponent.HandleShowConfirmSkip | app/experimenter/game/components/Practice.tsx:187-194 | a running recording is stopped and the confirmation shown |
| ExperimenterPractice.PracticeComponent.HandleEndPractice | app/experimenter/game/components/Practice.tsx:232-235 | the round is reset before practice is reported done |
| ExperimenterPractice.PracticeComponent.ConfirmSkipAction | app/experimenter/game/components/Practice.tsx:326-333 | the confirmation closes; practice ends only when the save state is shown |
| ExperimenterPractice.PracticeComponent.CloseConfirmAction | app/experimenter/game/components/Practice.tsx:323-325 | the confirmation closes |
| ExperimenterPractice.PracticeComponent.AnsweredCountEffects | app/experimenter/game/components/Practice.tsx:129-131 | the progress bar follows the count, and ten answered resets the mode to typing (lines 226-230) |
| ExperimenterPractice.PracticeComponent.PracticeEffect | app/experimenter/game/components/Practice.tsx:133-137 | the intro is shown whenever practice is not done |
| ExperimenterPractice.PracticeComponent.HandleCloseIntro | app/experimenter/game/components/Practice.tsx:139-141 | the intro is hidden |
| DashboardGreeting.KeysDistinct | app/dashboard/page.tsx:49-50 | each email has its own introduction and welcome keys, distinct from each other and from the session-user key |
| DashboardGreeting.StoredEmail | app/dashboard/page.tsx:41 | the stored current user, or "anonymous" when it is missing or empty |
| DashboardGreeting.LoginChecked | app/dashboard/page.tsx:52-62 | session storage after the fresh-login test; stated by GreetingRun: after a run the session records the user, and after a fresh login the welcome plays again whatever the old flag said |
| DashboardGreeting.GreetingRun | app/dashboard/page.tsx:45-81 | nothing while auth loads or without an email; a fresh login clears the welcome key; "bemutatkozas" iff its key is absent; otherwise "udvozles" iff the welcome key is absent; at most one greeting per run |
| DashboardGreeting.BemutatkozasOncePerEmail | app/dashboard/page.tsx:64-71 | over any runs the introduction plays at most once per email while local storage persists, and never once its key is set |
| DashboardGreeting.UdvozlesOncePerLogin | app/dashboard/page.tsx:52-80 | over runs of one login the welcome plays at most once, and never when this login already played it |
| DashboardGreeting.Dashboard.constructor | app/dashboard/page.tsx:38 | no email read yet and an empty log |
| DashboardGreeting.Dashboard.Mount | app/dashboard/page.tsx:39-43 | the email is StoredEmail of local storage |
| DashboardGreeting.Dashboard.GreetingEffect | app/dashboard/page.tsx:45-81 | both stores and the log follow GreetingRun |
| History.ToggleSort | app/dashboard/profile/history/page.tsx:44-46 | toggling always changes the order; with two orders, twice restores it |
| History.InOrderTotal | app/dashboard/profile/history/page.tsx:49-52 | the comparator relates every pair one way or the other |
| History.InOrderTrans | app/dashboard/profile/history/page.tsx:49-52 | the comparator is transitive |
| History.Insert | app/dashboard/profile/history/page.tsx:49-52 | inserting into a sorted list keeps it sorted and adds exactly the element |
| History.Sort | app/dashboard/profile/history/page.tsx:49-52 | the sorted copy is sorted (names ascending, or timestamps descending) and a permutation of the list |
| History.Displayed | app/dashboard/profile/history/page.tsx:54-63 | keeps exactly the concepts with a processed answer or the audio marker, never more than given |
| History.DisplayedAppend | app/dashboard/profile/history/page.tsx:54-63 | filtering commutes with concatenation, so relative order is kept |
| History.DisplayedSorted | app/dashboard/profile/history/page.tsx:49-63 | filtering a sorted list leaves it sorted |
| History.DisplayedConcepts | app/dashboard/profile/history/page.tsx:49-63 | the sorted copy filtered by hasAnswer; stated by DisplayedConceptsSpec |
| History.DisplayedConceptsSpec | app/dashboard/profile/history/page.tsx:49-63 | the displayed list is sorted and holds exactly the answered concepts that carry an answer |
| AnsweredConcepts.ContainsAudio | app/dashboard/profile/history/components/AnsweredConcepts.tsx:42 | containsAudio; its lines are stated by AnswerLines |
| AnsweredConcepts.ProcessedText | app/dashboard/profile/history/components/AnsweredConcepts.tsx:43-47 | processedText; stated by ProcessedItemsTrimmed and TypedAfterRecording |
| AnsweredConcepts.HasAnswer | app/dashboard/profile/history/components/AnsweredConcepts.tsx:49 | hasAnswer; stated by HasAnswerWithoutAudio and AnswerLines |
| AnsweredConcepts.ProcessedItemsTrimmed | app/dashboard/profile/history/components/AnsweredConcepts.tsx:43-47 | every processed item is non-empty, holds no ';' and has no whitespace at either end |
| AnsweredConcepts.HasAnswerWithoutAudio | app/dashboard/profile/history/components/AnsweredConcepts.tsx:42-49 | without the marker, hasAnswer holds exactly when the answer has a character that is neither whitespace nor ';' |
| AnsweredConcepts.TypedAfterRecording | app/dashboard/profile/history/components/AnsweredConcepts.tsx:42-47 | after the marker, one typed answer without ';' shows as its trim, or nothing when blank, even when it is the marker text |
| AnsweredConcepts.SecondMarkerSurvives | app/dashboard/profile/history/components/AnsweredConcepts.tsx:42-47 | the instance of TypedAfterRecording where the typed answer is a second marker |
| AnsweredConcepts.TextLines | app/dashboard/profile/history/components/AnsweredConcepts.tsx:136-140 | line i shows item i, one line per item and no note |
| AnsweredConcepts.AnswerBox | app/dashboard/profile/history/components/AnsweredConcepts.tsx:133-160 | the box starts with the typed lines in order and ends with the recording note when there is audio, one line longer than the items exactly then; a single line without items; the no-answer note exactly with no items and no audio |
| AnsweredConcepts.AnswerLines | app/dashboard/profile/history/components/AnsweredConcepts.tsx:133-160 | "/ hangfelvétel /" is shown iff there is audio and "/ nincs válasz /" exactly when there is no answer |
| AnsweredConcepts.RequestAudioFile | app/dashboard/profile/history/components/AnsweredConcepts.tsx:51-61 | no request without a user; otherwise the entry carries the user, the concept, the date text and the message naming the concept, under an id that starts "CONCEPT_" + user + "_" + concept + "_" and ends with digits that read back as the time |
| AnsweredConcepts.RequestIdsDifferInTime | app/dashboard/profile/history/components/AnsweredConcepts.tsx:53 | two requests for the same user and concept at different times get different ids |
| AnsweredConcepts.ShowsRequestButton | app/dashboard/profile/history/components/AnsweredConcepts.tsx:163-167 | the "Lekérés" button is offered for recorded answers; stated by RequestButtonWithAudioNote |
| AnsweredConcepts.RequestButtonWithAudioNote | app/dashboard/profile/history/components/AnsweredConcepts.tsx:141-167 | the request button appears exactly in the boxes that show the recording note, and only for concepts the history page displays |
| Common.SkipWhitespace | app/dashboard/profile/history/components/AnsweredConcepts.tsx:46 | the first position at or after i without whitespace, everything before it whitespace |
| Common.SkipWhitespaceBack | app/dashboard/profile/history/components/AnsweredConcepts.tsx:46 | the end of the last non-whitespace character, everything after it whitespace |
| Common.TrimEnds | app/dashboard/profile/history/components/AnsweredConcepts.tsx:46 | a trimmed string neither starts nor ends with whitespace |
| Common.TrimSlice | app/dashboard/profile/history/components/AnsweredConcepts.tsx:46 | a trimmed string is a slice of the input with only whitespace cut off either end |
| Common.TrimChars | app/dashboard/profile/history/components/AnsweredConcepts.tsx:46 | every character of the trim occurs in the input |
| Common.TrimEmptyIff | app/dashboard/game/page.tsx:433 | the trim is empty exactly for all-whitespace input |
| Common.TrimUnchanged | app/dashboard/profile/history/components/AnsweredConcepts.tsx:46 | a string without whitespace at either end is its own trim |
| Common.TrimIdempotent | app/dashboard/profile/history/components/AnsweredConcepts.tsx:46 | trimming twice is trimming once |
| Common.Split | app/dashboard/profile/history/components/AnsweredConcepts.tsx:45 | split on one character: never empty, no piece holds the separator |
| Common.JoinSplit | app/dashboard/profile/personal/page.tsx:65 | joining the pieces of a split with the same separator restores the string |
| Common.JoinChars | app/dashboard/profile/personal/page.tsx:65 | a join holds no character that is neither the separator nor in a piece |
| Common.DropEmpty | app/dashboard/profile/history/components/AnsweredConcepts.tsx:47 | every kept element is non-empty and from the input, and every non-empty input element is kept |
| Common.DropEmptyAppend | app/dashboard/profile/history/components/AnsweredConcepts.tsx:47 | dropping empty strings distributes over concatenation and keeps a single non-empty string, so order and multiplicity are kept |
| Common.TrimAll | app/dashboard/profile/history/components/AnsweredConcepts.tsx:46 | trims every element, keeping the count |
| Common.RemoveChar | app/dashboard/profile/personal/page.tsx:65 | the character no longer occurs, and every other character occurs afterwards exactly when it did before |
| Common.RemoveCharAppend | app/dashboard/profile/personal/page.tsx:65 | removal distributes over concatenation and keeps a single other character, so the others stay in order and keep their multiplicity |
| Common.IndexOfFrom | app/dashboard/profile/history/components/AnsweredConcepts.tsx:44 | the first occurrence at or after the start position, or none when there is no occurrence there |
| Common.IndexOf | app/dashboard/profile/history/components/AnsweredConcepts.tsx:42-44 | the first occurrence of the pattern, none exactly when it does not occur |
| Common.ReplaceFirst | app/dashboard/profile/history/components/AnsweredConcepts.tsx:44 | only the first occurrence is replaced; without one the string is unchanged |
| Common.Decimal | app/dashboard/game/components/RecordingControls.tsx:84 | String(n): a non-empty numeral of digits, two or more exactly from 10, and without a leading zero unless it is "0" |
| Common.DecimalValue | app/dashboard/game/components/RecordingControls.tsx:84 | the numeral reads back as the number |
| Common.ZeroPrefixValue | app/dashboard/game/components/RecordingControls.tsx:84-87 | a leading zero does not change the value |
| Common.PadStart2 | app/dashboard/game/components/RecordingControls.tsx:84-87 | at least two characters, zeros added in front of a shorter string only |
| Requests.GroupRequests | app/dashboard/game/page.tsx:82 | the number of requests of a sound group in a log, never more than its length |
| Requests.NoGroupRequests | app/dashboard/game/page.tsx:78-85 | calls that never request a group add no requests for it |
| Requests.OneGroupRequest | app/dashboard/game/page.tsx:78-85 | one request of a group adds exactly one |
| Register.IsFormIncomplete | app/register/page.tsx:86-97 | specification predicate of the submit button's disabled state; its behaviour under inputs is stated by InputKeepsCompleteness, ClearingDisablesSubmit and SubmitNeedsPolicyRead |
| Register.InputKeepsCompleteness | app/register/page.tsx:86-97 | from a complete form, one data-form input disables the submit button exactly when it empties a required entry or leaves a school child without a grade |
| Register.ClearingDisablesSubmit | app/register/page.tsx:86-97 | whatever else is filled, emptying a required entry disables the submit button |
| Register.SubmitNeedsPolicyRead | app/register/page.tsx:86-97 | on the page the submit button is enabled only once the privacy policy was opened (lines 167-180) |
| Register.StartsIncomplete | app/register/page.tsx:55-65 | the page opens with the submit button disabled |
| Register.FieldErrors | app/register/page.tsx:314-347 | no error exactly with an email and a password of at least 6 characters; a short non-empty password gets the length message |
| Register.ErrorMessage | app/register/page.tsx:150-157 | "auth/email-already-in-use" gets its own message; every other failure the generic one |
| Common.ReplaceSlashes | app/register/page.tsx:143 | the `.replace(/\//g, '. ')` of the register and participant pages: no '/' is left, and text without '/' is unchanged |
| Register.WrittenBirthdate | app/register/page.tsx:137-144 | null exactly without a birthdate; otherwise the Hungarian date text, free of '/', and unchanged when it had none |
| Register.Completion | app/register/page.tsx:126-157 | success exactly when the account, the user document and the display name all succeed, and only then the success page; a failed account request makes no further call; the document is written first, with the birthdate as WrittenBirthdate |
| Register.RegisterPage.constructor | app/register/page.tsx:45-78 | the initial record, nothing ticked, no prompt, mounted, empty log |
| Register.RegisterPage.FormDataChanged | app/register/components/DataForm.tsx:37-39 | the page holds the record the form reported |
| Register.RegisterPage.PrivacyPolicyClick | app/register/page.tsx:163-165 | the policy is marked as read; it is never unset |
| Register.RegisterPage.CheckboxClick | app/register/page.tsx:539-545 | before the policy was opened: the prompt is shown and its timer restarted, the previous one cancelled, the box not ticked; afterwards the box is ticked; both flags only ever become true |
| Register.RegisterPage.TimerFired | app/register/page.tsx:173-180 | only the last restarted timer hides the prompt; cancelled ones do nothing |
| Register.RegisterPage.Unmount | app/register/page.tsx:111-116 | unmounting clears the mounted flag and the pending timer |
| Register.RegisterPage.SubmitStart | app/register/page.tsx:118-131 | nothing once unmounted; otherwise submitting, error cleared, account requested with the trimmed nickname |
| Register.RegisterPage.SubmitFinish | app/register/page.tsx:133-160 | the log and error follow Completion; submitting is cleared only when still mounted |
| DataForm.Years | app/register/components/DataForm.tsx:42-45 | one entry per year from 1900 to the current year |
| DataForm.YearsRange | app/register/components/DataForm.tsx:42-45 | the list is contiguous, ascending, and runs from 1900 to the current year |
| DataForm.IndexOf | app/register/components/DataForm.tsx:196 | indexOf: the first equal position, -1 exactly when none |
| DataForm.MonthRoundTrip | app/register/components/DataForm.tsx:194-197 | months.indexOf(months[m]) is m for every month |
| DataForm.MonthsDistinct | app/register/components/DataForm.tsx:46-59 | no two month names are equal |
| DataForm.Apply | app/register/components/DataForm.tsx:85-289 | an input changes exactly its own field to the new value and leaves the rest unchanged |
| DataForm.SchoolSwitchKeepsGrade | app/register/components/DataForm.tsx:273 | switching the school away and back shows the grade typed before |
| DataForm.Form.constructor | app/register/components/DataForm.tsx:35-39 | the form starts from the given record and reports it to the parent |
| DataForm.Form.OnInput | app/register/components/DataForm.tsx:35-39 | the record follows Apply and every change is reported to the parent |
| PasswordChange.Validate | app/dashboard/profile/password-change/page.tsx:41-58 | the first failing check in order: no user or email, a new password below 6 characters, a mismatching confirmation |
| PasswordChange.ErrorText | app/dashboard/profile/password-change/page.tsx:74-82 | three codes map to their messages; any other code to the generic one |
| PasswordChange.Submission | app/dashboard/profile/password-change/page.tsx:37-86 | a failed check makes no call; reauthentication precedes the update; success only after both succeed; otherwise the mapped error |
| PasswordChange.PasswordChangePage.constructor | app/dashboard/profile/password-change/page.tsx:30-33 | no message, not submitting, empty log |
| PasswordChange.PasswordChangePage.Submit | app/dashboard/profile/password-change/page.tsx:37-68 | the message is cleared first; a failed check sets its message and stops without submitting; otherwise submitting is set and reauthentication requested |
| PasswordChange.PasswordChangePage.Finish | app/dashboard/profile/password-change/page.tsx:68-85 | the update is requested only after reauthentication succeeded; the message follows; submitting is cleared in every case |
| PasswordChange.SubmitAndFinish | app/dashboard/profile/password-change/page.tsx:37-86 | running Submit and then Finish leaves exactly the calls and message of Submission and submitting cleared |
| Personal.MapChar | app/dashboard/profile/personal/page.tsx:65 | every occurrence of one character is replaced by another; nothing else changes |
| Personal.JoinSplitMaps | app/dashboard/profile/personal/page.tsx:65 | split on ' ' then join with '-' replaces every space by '-' |
| Personal.RepairBirthdate | app/dashboard/profile/personal/page.tsx:65 | specification function of the repair; stated by RepairBirthdateShape and RepairHungarianDate |
| Personal.RepairBirthdateShape | app/dashboard/profile/personal/page.tsx:65 | the repair is the trimmed dot-free text with every space turned into '-' |
| Personal.HungarianDotsRemoved | app/dashboard/profile/personal/page.tsx:65 | deleting the dots of "Y. M. D." leaves "Y M D" |
| Personal.DigitEndsUntrimmed | app/dashboard/profile/personal/page.tsx:65 | a string that starts and ends with a digit is its own trim |
| Personal.HungarianSpacesMapped | app/dashboard/profile/personal/page.tsx:65 | mapping spaces to '-' turns "Y M D" into "Y-M-D" |
| Personal.RepairHungarianDate | app/dashboard/profile/personal/page.tsx:65 | "2018. 05. 03." becomes "2018-05-03", and likewise every stored "Y. M. D." |
| Personal.ParsedBirthdate | app/dashboard/profile/personal/page.tsx:61-76 | none when absent or empty; otherwise the parse of the repaired string, none when unparseable |
| Personal.EditableCopy | app/dashboard/profile/personal/page.tsx:77-87 | missing strings become '', missing counters 0, first_dashboard_today is always true |
| Personal.CopiesAgree | app/dashboard/profile/personal/page.tsx:77-98 | the editable and the initial copy agree despite the misspelt key, so a fresh form is unchanged |
| Personal.IsFormChanged | app/dashboard/profile/personal/page.tsx:107-108 | the `JSON.stringify` comparison, where a cleared birthdate is null; stated by CopiesAgree, EditChangesForm and EditUndone |
| Personal.EditChangesForm | app/dashboard/profile/personal/page.tsx:107-108 | from an unchanged form, one edit enables saving exactly when it alters what its field shows |
| Personal.EditUndone | app/dashboard/profile/personal/page.tsx:107-108 | putting back what a field showed disables saving again, also for a date picked and then cleared |
| Personal.ValidateSpec | app/dashboard/profile/personal/page.tsx:117-128 | a blank nickname is reported first, then a blank location; anything else passes |
| Personal.Validate | app/dashboard/profile/personal/page.tsx:117-128 | specification function of the two checks; stated by ValidateSpec |
| Personal.Submission | app/dashboard/profile/personal/page.tsx:111-146 | specification function of handleSubmit; stated by SubmissionSpec and met by PersonalPage.HandleSubmit |
| Personal.SavedBirthdate | app/dashboard/profile/personal/page.tsx:130-133 | null exactly without a date or when its text in the browser's format is empty; otherwise that text |
| Personal.SavedBirthdateReadsBack | app/dashboard/profile/personal/page.tsx:61-76 | with the Hungarian browser format, a saved birthdate is read back as the same date on the next visit |
| Personal.RegisteredBirthdateReadsBack | app/register/page.tsx:137-144 | the registration page writes "Y. M. D.", and this page's repair reads it back as the registered date |
| Personal.SubmissionSpec | app/dashboard/profile/personal/page.tsx:111-146 | nothing is written unless both are non-blank; the record goes first with the birthdate as SavedBirthdate, then the trimmed display name; success and status exactly when both succeed, with the error cleared |
| Personal.PersonalPage.constructor | app/dashboard/profile/personal/page.tsx:36-41 | no data, no messages, status hidden, empty log |
| Personal.PersonalPage.Loaded | app/dashboard/profile/personal/page.tsx:55-98 | both copies are built from the document and the form starts unchanged |
| Personal.PersonalPage.Edit | app/dashboard/profile/personal/page.tsx:107-108 | the form holds the edited record |
| Personal.PersonalPage.HandleSubmit | app/dashboard/profile/personal/page.tsx:111-146 | the submission's calls are appended, its messages left on the page, the status shown on success, submitting cleared on every path |
| Personal.PersonalPage.StatusTimerFired | app/dashboard/profile/personal/page.tsx:139 | the status is hidden |
| ParticipantData.GenerateId | app/experimenter/participant-data/page.tsx:51-53 | 28 characters, each from the 62-character alphabet |
| ParticipantData.ResolvePseudoUID | app/experimenter/participant-data/page.tsx:47-58 | a stored non-empty id is reused; otherwise the generated one is stored and used; the id is never empty |
| ParticipantData.PseudoUIDStable | app/experimenter/participant-data/page.tsx:47-58 | a later mount in the same tab keeps the id whatever it draws |
| ParticipantData.Document | app/experimenter/participant-data/page.tsx:86-95 | the record, with the birthdate's '/' turned into ". "; stated by DocumentSpec |
| ParticipantData.DocumentSpec | app/experimenter/participant-data/page.tsx:86-95 | the record has the six keys, carries the nickname and location as given, and a null birthdate exactly when none was given; a given birthdate is written without '/', and as formatted when its text has none |
| ParticipantData.Sanitized | app/experimenter/participant-data/page.tsx:97-100 | specification function of the sanitising; stated by SanitizedSpec and SanitizedIdempotent, met by Sanitize |
| ParticipantData.SanitizedSpec | app/experimenter/participant-data/page.tsx:97-100 | the keys are kept, no undefined is left, undefined becomes null and every other value is unchanged |
| ParticipantData.SanitizedIdempotent | app/experimenter/participant-data/page.tsx:97-100 | sanitising twice is sanitising once |
| ParticipantData.Sanitize | app/experimenter/participant-data/page.tsx:98-100 | the loop over the keys computes the sanitised record |
| ParticipantData.Validate | app/experimenter/participant-data/page.tsx:67-83 | specification function of the checks; stated by ValidateSpec |
| ParticipantData.ValidateSpec | app/experimenter/participant-data/page.tsx:67-83 | each message exactly when its check is the first to fail, in order: no id, a blank nickname, a blank location |
| ParticipantData.Submission | app/experimenter/participant-data/page.tsx:61-114 | specification function of handleSubmit; stated by SubmissionSpec and met by ParticipantPage.HandleSubmit |
| ParticipantData.SubmissionSpec | app/experimenter/participant-data/page.tsx:61-114 | a failed check writes nothing; otherwise the sanitised record is written first; navigation to the game exactly when the write worked, which is exactly when no error is left |
| ParticipantData.WrittenRecord | app/experimenter/participant-data/page.tsx:86-104 | the written record has the six keys, no undefined, the nickname, a null birthdate exactly when none was given, and otherwise a birthdate text without '/' |
| ParticipantData.ParticipantPage.constructor | app/experimenter/participant-data/page.tsx:41-46 | empty id, no messages, not submitting, empty log |
| ParticipantData.ParticipantPage.Mount | app/experimenter/participant-data/page.tsx:47-58 | id and session storage follow ResolvePseudoUID |
| ParticipantData.ParticipantPage.FormDataChanged | app/experimenter/participant-data/page.tsx:166 | the page holds the edited record |
| ParticipantData.ParticipantPage.HandleSubmit | app/experimenter/participant-data/page.tsx:61-114 | the log and messages follow Submission and submitting is cleared on every path |
| DeleteAccount.Occurrences | app/dashboard/profile/delete-account/page.tsx:130-137 | the number of answer children keyed by the uid; zero exactly when none is |
| DeleteAccount.DecrementedCount | app/dashboard/profile/delete-account/page.tsx:140-143 | max(0, old - removed) with a missing count as 0: never negative |
| DeleteAccount.ConceptUpdate | app/dashboard/profile/delete-account/page.tsx:125-145 | the entries for one concept; stated by AllUpdatesShape and computed by AddConcept |
| DeleteAccount.CategoryUpdate | app/dashboard/profile/delete-account/page.tsx:123-146 | the entries for one category; computed by AddCategory |
| DeleteAccount.AllUpdates | app/dashboard/profile/delete-account/page.tsx:117-146 | the whole update; stated by AllUpdatesShape, AllUpdatesCovers and NoAnswersNoUpdate, computed by BuildMultiUpdate |
| DeleteAccount.AllUpdatesShape | app/dashboard/profile/delete-account/page.tsx:123-146 | only the user's own answer entries are nulled, counts are never negative, and a count is written only where an answer was removed |
| DeleteAccount.AllUpdatesCovers | app/dashboard/profile/delete-account/page.tsx:123-146 | every answer the user left in the snapshot is nulled |
| DeleteAccount.NoAnswersNoUpdate | app/dashboard/profile/delete-account/page.tsx:148-150 | a user without answers leaves the update empty |
| DeleteAccount.AddConcept | app/dashboard/profile/delete-account/page.tsx:125-145 | the inner loop adds exactly that concept's entries |
| DeleteAccount.AddCategory | app/dashboard/profile/delete-account/page.tsx:123-146 | the loop over one category's concepts adds exactly that category's entries |
| DeleteAccount.BuildMultiUpdate | app/dashboard/profile/delete-account/page.tsx:121-146 | the nested loops compute the whole update |
| DeleteAccount.Reauth | app/dashboard/profile/delete-account/page.tsx:40-52 | success exactly with a user, a non-empty password and a successful reauthentication; no request without a user or password |
| DeleteAccount.ReauthHarmless | app/dashboard/profile/delete-account/page.tsx:40-52 | reauthentication deletes nothing |
| DeleteAccount.ReasonLog | app/dashboard/profile/delete-account/page.tsx:55-69 | nothing without a uid; otherwise one contact entry keyed by the uid with the reason or the default |
| DeleteAccount.RunSteps | app/dashboard/profile/delete-account/page.tsx:112-173 | the calls of the try block when the stage `failAt` throws; stated by RunStepsOrdered, RunStepsMembers and RunStepsHome |
| DeleteAccount.RunStepsOrdered | app/dashboard/profile/delete-account/page.tsx:112-173 | steps in deletion order make a run in deletion order |
| DeleteAccount.RunStepsMembers | app/dashboard/profile/delete-account/page.tsx:112-173 | a run requests only its steps, home, or the failure alert |
| DeleteAccount.RunStepsHome | app/dashboard/profile/delete-account/page.tsx:112-173 | a run goes home exactly when no step throws, and then it made every request |
| DeleteAccount.TrySteps | app/dashboard/profile/delete-account/page.tsx:112-169 | the try block's steps; stated by TryStepsCalls and TryStepsOrdered |
| DeleteAccount.DeleteAll | app/dashboard/profile/delete-account/page.tsx:95-177 | handleDeleteAll's requests; stated by DeleteAllOrdered, DeleteAllSucceeds and DeleteAllCases |
| DeleteAccount.DeleteProfile | app/dashboard/profile/delete-account/page.tsx:72-92 | handleDeleteProfile's requests; stated by DeleteProfileSpec |
| DeleteAccount.TryStepsCalls | app/dashboard/profile/delete-account/page.tsx:112-169 | the try block's requests: user document, snapshot read, the update only when non-empty, logs, audio, sign-in account |
| DeleteAccount.TryStepsOrdered | app/dashboard/profile/delete-account/page.tsx:112-173 | the try block keeps the deletion order |
| DeleteAccount.DeleteAllOrdered | app/dashboard/profile/delete-account/page.tsx:95-177 | nothing is deleted before the reason is logged; the sign-in account goes last; each step at most once |
| DeleteAccount.DeleteAllAborts | app/dashboard/profile/delete-account/page.tsx:99-107 | failed reauthentication or a declined confirmation deletes nothing |
| DeleteAccount.DeleteAllCalls | app/dashboard/profile/delete-account/page.tsx:95-177 | handleDeleteAll requests only reauthentication, the reason, its own steps, home or the alert |
| DeleteAccount.UpdateInRun | app/dashboard/profile/delete-account/page.tsx:148-150 | the only update the try block can request is its own non-empty one |
| DeleteAccount.DeleteAllUpdate | app/dashboard/profile/delete-account/page.tsx:117-150 | the database update is the one built from the snapshot, issued only when non-empty |
| DeleteAccount.RunHome | app/dashboard/profile/delete-account/page.tsx:168-170 | a run that goes home made every request, the sign-in account's deletion just before |
| DeleteAccount.DeleteAllSucceeds | app/dashboard/profile/delete-account/page.tsx:95-177 | handleDeleteAll goes home exactly when nothing threw, and then the sign-in account was deleted just before |
| DeleteAccount.DeleteProfileSpec | app/dashboard/profile/delete-account/page.tsx:72-92 | only the sign-in account is deleted, only after a successful reauthentication; home exactly when that deletion worked |
| DeleteAccount.DeleteAllCases | app/dashboard/profile/delete-account/page.tsx:95-177 | for a signed-in user: stopped at a dialog, or the reason log followed by the try block |
| DeleteAccount.DeleteAccountPage.constructor | app/dashboard/profile/delete-account/page.tsx:28-29 | empty reason, not loading, empty log |
| DeleteAccount.DeleteAccountPage.SetReason | app/dashboard/profile/delete-account/page.tsx:28 | the reason holds the typed text |
| DeleteAccount.DeleteAccountPage.PromptReauth | app/dashboard/profile/delete-account/page.tsx:40-52 | the log and result follow Reauth |
| DeleteAccount.DeleteAccountPage.LogDeletionReason | app/dashboard/profile/delete-account/page.tsx:55-69 | the log follows ReasonLog |
| DeleteAccount.DeleteAccountPage.HandleDeleteProfile | app/dashboard/profile/delete-account/page.tsx:72-92 | the log follows DeleteProfile; loading is reset on every path after it was set |
| DeleteAccount.DeleteAccountPage.HandleDeleteAll | app/dashboard/profile/delete-account/page.tsx:95-177 | the log follows DeleteAll; loading is reset on every path after it was set |
| DeleteAccount.DeleteAccountPage.DeleteEverything | app/dashboard/profile/delete-account/page.tsx:110-176 | the reason is logged, then the try block runs |
| DeleteAccount.Attempt | app/dashboard/profile/delete-account/page.tsx:112-173 | one awaited request: it is made, and when its stage throws the alert follows and the block stops |
| DeleteAccount.RunTry | app/dashboard/profile/delete-account/page.tsx:112-173 | the try block request by request computes the run of its steps, stopping at the one that throws |

## Left out

- Backend calls are not modelled as a backend. Authentication, document writes and
  reads, realtime-database reads and updates, and storage listing and deletes are
  requests appended to a log. Their outcomes (success, a failure code, the snapshot)
  are parameters.
- The sound manager, the recorder and the game hooks are not part of this model.
  Their requests are log entries. Hook outputs such as the answered count, the
  recordings and the fields are parameters, and `MAX_FIELDS` is a parameter because
  it comes from such a hook.
- Time is left out:
  - the 100 ms delays of the concept and feedback handlers run at once;
  - timer cancellation on re-render is not modelled;
  - the 2000 ms and 1000 ms timers are explicit "timer fired" methods;
  - `Date.now()` and locale date text are parameters.
- Randomness is left out. `pickRandom` is a draw index parameter and the id
  characters are draw parameters. A generated id cannot be decoded back into its
  draws, and no property needs that.
- DOM and browser plumbing is left out, because it has no rules of its own:
  - element rectangles are inputs;
  - scrolling, focus and body overflow are not modelled;
  - resize, scroll and orientation listeners and the mutation observer are not modelled;
  - `requestAnimationFrame` is not modelled.
- `toPx` is left out. Tooltip offsets are numbers already, because parsing `vw`/`vh`
  strings is floating-point work.
- Geometry uses `real`. Rounding of doubles is not modelled.
- `localeCompare` is not modelled. History.Sort compares names by code-point order,
  which is a concrete total order standing in for the locale's collation.
- Sort stability is not proved. History.Sort is a stable insertion sort, but the
  model proves sortedness and permutation only.
- Personal.IsFormChanged compares `Serialized` records, where a cleared birthdate
  is null as in `JSON.stringify`. The text itself is not modelled: key order is
  not compared, and a date is compared by year, month and day rather than as its
  ISO text with the time of day.
- The form library's `required` rule on the privacy checkbox is not modelled. Its
  other rules are in `Register.FieldErrors`.
- String lengths count characters, not UTF-16 code units. The 6-character password
  minimum is the only place this could differ, for characters outside the BMP.
- Console logging is left out.
- These display-only states are not modelled:
  - the final concept name and category;
  - the progress-bar height;
  - the help popovers;
  - `showQuestions`;
  - the Likert and general panels' close handlers, which only reset flags and write a score.
- The dashboard practice screen's progress-bar sync effect
  (app/dashboard/game/components/Practice.tsx:276-278) is left out. It is the same
  one-line assignment the game screen has in
  `DashboardGame.GameSession.AnsweredTodayChanged`.
- The concept-audio ref reset on mount (app/dashboard/game/page.tsx:230-233) is
  part of the constructor's initial state.
- The auto-stop guard re-armed by `DashboardGame.GameSession.RecorderStatusChanged`
  is never read anywhere in the source. The model keeps the field and its update
  only.
- The storage listing and the `Promise.all` deletions of logs and audio are each
  modelled as one request, which succeeds or throws as a whole. The per-concept
  answer reads of the deletion loop are folded into the one category snapshot
  parameter.
- ExperimenterGame.ExperimenterScreen.FieldMarkingEffect models one run of the
  effect. Its dependency on `inputFields`, which it rewrites itself, makes React run
  it again. The re-render loop is not modelled. `ExperimenterGame.MarkFieldsSettles`
  states when a second run changes nothing.
- DashboardRecordingControls.ParseFields and FormatTimeRoundTrip read the label back
  with a parser the source does not have. It is the reference inverse that states
  what the label means.
- DashboardGame.GameSession.DummySave is modelled as written. Nothing in the page
  passes `dummySave` to a button; the save buttons call `handleFeedback` directly
  (app/dashboard/game/page.tsx:1221, 1240, 1248, 1423). It is the only place that
  sets the save state (app/dashboard/game/page.tsx:450), so in the running page
  the dashboard game never shows the save state through it.
- DashboardGame.GameSession.HandleMarkAnswered is modelled as written. Nothing in
  the page calls `handleMarkAnswered` (app/dashboard/game/page.tsx:429), so the
  marked answers of `DashboardGame.MarkAnswered` and `MarkedAnswersSpec` are never
  reached in the running page.
- ExperimenterGame.ExperimenterScreen.DummySave is modelled as written. Nothing in
  the page passes `dummySave` to a button; the save buttons call `handleFeedback`
  (app/experimenter/game/page.tsx:822, 838, 846). `HandleMarkAnswered`,
  `OpenQuestions`, `SaveCalls` and `MarkedAfterMarkAnswered` are reachable only
  through it, and the save state it sets (app/experimenter/game/page.tsx:219) is
  never reached in the running page.
- ExperimenterPractice.PracticeComponent.DummySave is modelled as written. Nothing
  in the component passes `dummySave` to a button. It is the only place that sets
  the save state (app/experimenter/game/components/Practice.tsx:164), so in the
  running page the save state is never reached, and a confirmed skip never ends
  practice.
- PracticeOverlay.Overlay.current is the overlay's own copy of the parent's
  `currentStep` prop. It is not tied to `DashboardPractice.PracticeScreen.overlayStep`:
  `StepPropChanged` stands for the parent's re-render, and no lemma connects the
  two classes.
- OverlayHelp.PositionsInsideViewport is about the computed top and left. The
  drawn box of a 'bottom' tooltip is shifted left by half its width
  (app/dashboard/game/components/OverlayHelp.tsx:164), so it can extend past the
  viewport's left edge. That transform is not modelled.
- Register.Completion, Personal.Submission and ParticipantData.Submission take the
  date formatter as a parameter `format`. It stands for `toLocaleDateString`, which
  is Hungarian on the register page (app/register/page.tsx:139) and the
  participant page (app/experimenter/participant-data/page.tsx:89), and the
  browser's default on the personal page
  (app/dashboard/profile/personal/page.tsx:133).
- DashboardRecordingControls.Controls.ConfirmDelete takes the row whose popup is
  confirmed as a parameter. Every row renders its own popup, and all of them read
  the one shared `showDeletePopup` flag
  (app/dashboard/game/components/RecordingControls.tsx:226-235). Opening it for
  one row therefore shows every row's popup, and which of them receives the click
  depends on how the browser stacks them, which is not modelled.
- AnsweredConcepts.RequestAudioFile leaves out the status message shown for
  2000 ms afterwards and the failure, which is only logged to the console.
- OverlayHelp.Rendered takes the item table as a parameter; the overlay passes its
  own `HelpItems`. `OverlayHelp.OwnTextShown` states the case of the overlay's own
  items.

## Findings

| source | as written | input that shows it | evidently intended | confidence | as-written member | corrected member |
|---|---|---|---|---|---|---|
| app/dashboard/game/components/PracticeOverlay.tsx:273-276 | the last tooltip is clamped with `Math.min(Math.max(rawLeft), innerWidth - tipW)`; a one-argument `Math.max` returns its argument, so there is no lower bound | rawLeft = -50 with innerWidth = 800 and tipW = 200 gives left = -50, off the screen | `Math.max(0, Math.min(rawLeft, innerWidth - tipW))`, which keeps the tooltip inside the viewport as on the other steps | not executed | PracticeOverlay.TooltipPositionLeavesScreen | PracticeOverlay.TooltipPositionIntended |
