/**
 * The recording panel of the experimenter's game screen. It differs from the
 * dashboard one in two ways: each recording row has its own confirmation popup
 * (a map from recording id to visibility), and the stop button does not wait
 * for the recorder before locking the start button.
 */
module ExperimenterRecordingControls {
  import opened Common
  import opened Requests
  import DRC = DashboardRecordingControls

  /**
   * The same label as on the dashboard: below 100 minutes it is "mm:ss" with
   * both fields read back as the minutes and seconds of `t`, and any label reads
   * back as `t`.
   */
  lemma TimerLabel(t: nat)
    ensures DRC.ParseTime(DRC.FormatTime(t)) == Some(t)
    ensures t < 6000 ==> |DRC.FormatTime(t)| == 5 && DRC.FormatTime(t)[2] == ':'
  {
    DRC.FormatTimeRoundTrip(t);
    if t < 6000 {
      DRC.FormatTimeShape(t);
    }
  }

  /** `deletePopupVisible[id] || false`: a popup is shown only for an id explicitly set to true. */
  function PopupShown(visible: map<int, bool>, id: int): (shown: bool)
    ensures shown <==> id in visible && visible[id]
  {
    if id in visible then visible[id] else false
  }

  class Controls {
    var recordings: seq<DRC.RecordingItem>
    var maxRecordings: int
    var status: RecorderStatus
    var deletePopupVisible: map<int, bool>
    var currentRecordingIndex: int
    var canRecordMore: bool
    var tempDisabled: bool
    var enableTimers: nat
    var log: seq<Call>

    ghost predicate Valid()
      reads this
    {
      && canRecordMore == (|recordings| < maxRecordings)
      && (enableTimers == 0 ==> !tempDisabled)
    }

    predicate StartEnabled()
      reads this
    {
      status == Inactive && canRecordMore && !tempDisabled
    }

    constructor (recs: seq<DRC.RecordingItem>, max: int, st: RecorderStatus)
      ensures Valid()
      ensures recordings == recs && maxRecordings == max && status == st
      ensures deletePopupVisible == map[] && currentRecordingIndex == 0
      ensures canRecordMore == (|recs| < max) && !tempDisabled && enableTimers == 0 && log == []
    {
      recordings, maxRecordings, status := recs, max, st;
      deletePopupVisible := map[];
      currentRecordingIndex := 0;
      canRecordMore := |recs| < max;
      tempDisabled := false;
      enableTimers := 0;
      log := [];
    }

    method PropsChanged(recs: seq<DRC.RecordingItem>, max: int, st: RecorderStatus)
      requires Valid()
      modifies this`recordings, this`maxRecordings, this`status, this`canRecordMore
      ensures Valid()
      ensures recordings == recs && maxRecordings == max && status == st
      ensures canRecordMore == (|recs| < max)
    {
      recordings, maxRecordings, status := recs, max, st;
      canRecordMore := |recs| < max;
    }

    method ClickStart()
      requires Valid()
      modifies this`log
      ensures Valid()
      ensures old(StartEnabled()) ==> log == old(log) + [StopAllSounds, StartRecording]
      ensures !old(StartEnabled()) ==> log == old(log)
    {
      if StartEnabled() {
        log := log + [StopAllSounds, StartRecording];
      }
    }

    /** Stop without waiting: the start button is locked at once and a 1000 ms timer started. */
    method ClickStop()
      requires Valid()
      modifies this`log, this`tempDisabled, this`enableTimers
      ensures Valid()
      ensures old(status) != Inactive ==>
        log == old(log) + [StopRecording] && tempDisabled && enableTimers == old(enableTimers) + 1
      ensures old(status) == Inactive ==> unchanged(this)
    {
      if status != Inactive {
        log := log + [StopRecording];
        tempDisabled := true;
        enableTimers := enableTimers + 1;
      }
    }

    method EnableTimerFired()
      requires Valid()
      modifies this`tempDisabled, this`enableTimers
      ensures Valid()
      ensures old(enableTimers) > 0 ==> !tempDisabled && enableTimers == old(enableTimers) - 1
      ensures old(enableTimers) == 0 ==> unchanged(this)
    {
      if enableTimers > 0 {
        tempDisabled := false;
        enableTimers := enableTimers - 1;
      }
    }

    /** The trash icon of row `id` opens that row's popup; no other popup changes. */
    method ShowDeletePopup(id: int)
      modifies this`deletePopupVisible
      ensures deletePopupVisible == old(deletePopupVisible)[id := true]
      ensures PopupShown(deletePopupVisible, id)
      ensures forall k :: k != id ==> PopupShown(deletePopupVisible, k) == PopupShown(old(deletePopupVisible), k)
    {
      deletePopupVisible := deletePopupVisible[id := true];
    }

    /** "Mégse" closes row `id`'s popup; no other popup changes. */
    method CloseDeletePopup(id: int)
      modifies this`deletePopupVisible
      ensures deletePopupVisible == old(deletePopupVisible)[id := false]
      ensures !PopupShown(deletePopupVisible, id)
      ensures forall k :: k != id ==> PopupShown(deletePopupVisible, k) == PopupShown(old(deletePopupVisible), k)
    {
      deletePopupVisible := deletePopupVisible[id := false];
    }

    /** "Törlés": delete the recording and close its popup; the row index is left as it was. */
    method ConfirmDelete(rec: DRC.RecordingItem)
      modifies this`log, this`deletePopupVisible
      ensures log == old(log) + [DeleteRecording(rec.id)]
      ensures deletePopupVisible == old(deletePopupVisible)[rec.id := false]
      ensures !PopupShown(deletePopupVisible, rec.id)
      ensures forall k :: k != rec.id ==> PopupShown(deletePopupVisible, k) == PopupShown(old(deletePopupVisible), k)
    {
      log := log + [DeleteRecording(rec.id)];
      deletePopupVisible := deletePopupVisible[rec.id := false];
    }
  }
}
