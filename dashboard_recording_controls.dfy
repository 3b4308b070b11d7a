/**
 * The recording panel of the game screen: the mm:ss timer label, the
 * "can record more" flag kept in step with the recordings list, the start and
 * stop buttons (start silences the voice prompts first; stop waits for the
 * recorder and then locks the start button for a second), and deletion with
 * its confirmation popup.
 */
module DashboardRecordingControls {
  import opened Common
  import opened Requests

  // ---------------------------------------------------------------------------
  // Timer label
  // ---------------------------------------------------------------------------

  /** formatTime: whole minutes and the remaining seconds, each zero-padded to two digits. */
  function FormatTime(t: nat): string {
    PadStart2(Decimal(t / 60)) + ":" + PadStart2(Decimal(t % 60))
  }

  /** Reads an "m:s" label back: two non-empty digit fields, seconds below 60. */
  function ParseTime(s: string): Option<nat> {
    var parts := Split(s, ':');
    if |parts| == 2 && parts[0] != [] && parts[1] != [] && AllDigits(parts[0]) && AllDigits(parts[1])
       && DigitsValue(parts[1]) < 60
    then Some(DigitsValue(parts[0]) * 60 + DigitsValue(parts[1]))
    else None
  }

  /** Splitting "a:b" where neither side holds the separator gives exactly [a, b]. */
  lemma {:induction false} SplitAtSeparator(a: string, b: string, sep: char)
    requires sep !in a && sep !in b
    ensures Split(a + [sep] + b, sep) == [a, b]
  {
    if a == [] {
      assert a + [sep] + b == [sep] + b;
      assert ([sep] + b)[1..] == b;
      SplitWithoutSeparator(b, sep);
    } else {
      SplitAtSeparator(a[1..], b, sep);
      assert (a + [sep] + b)[1..] == a[1..] + [sep] + b;
      assert [a[0]] + a[1..] == a;
    }
  }

  /** The padded numeral of a number below 100 has two digits and reads back as the number. */
  lemma PaddedValue(n: nat)
    requires n < 100
    ensures var p := PadStart2(Decimal(n)); |p| == 2 && AllDigits(p) && DigitsValue(p) == n
  {
    DecimalValue(n);
    var d := Decimal(n);
    if |d| == 1 {
      ZeroPrefixValue(d);
    }
  }

  lemma PaddedDigits(n: nat)
    ensures var p := PadStart2(Decimal(n)); |p| >= 2 && AllDigits(p) && DigitsValue(p) == n
  {
    DecimalValue(n);
    var d := Decimal(n);
    if |d| == 1 {
      ZeroPrefixValue(d);
    }
  }

  /** Below 100 minutes the label is exactly "mm:ss". */
  lemma FormatTimeShape(t: nat)
    requires t < 6000
    ensures var r := FormatTime(t);
      |r| == 5 && r[2] == ':' && AllDigits(r[..2]) && AllDigits(r[3..])
      && DigitsValue(r[..2]) == t / 60 && DigitsValue(r[3..]) == t % 60
  {
    PaddedValue(t / 60);
    PaddedValue(t % 60);
    var r := FormatTime(t);
    assert r[..2] == PadStart2(Decimal(t / 60));
    assert r[3..] == PadStart2(Decimal(t % 60));
  }

  /** A digit string holds no separator. */
  lemma DigitsHaveNoColon(p: string)
    requires AllDigits(p)
    ensures ':' !in p
  {
    forall i | 0 <= i < |p|
      ensures p[i] != ':'
    {
      assert IsDigit(p[i]);
    }
  }

  /** Two non-empty digit fields around the separator, seconds below 60, read back as minutes and seconds. */
  lemma ParseFields(m: string, s: string)
    requires m != [] && s != [] && AllDigits(m) && AllDigits(s) && DigitsValue(s) < 60
    ensures ParseTime(m + [':'] + s) == Some(DigitsValue(m) * 60 + DigitsValue(s))
  {
    DigitsHaveNoColon(m);
    DigitsHaveNoColon(s);
    SplitAtSeparator(m, s, ':');
    var parts := Split(m + [':'] + s, ':');
    assert |parts| == 2 && parts[0] == m && parts[1] == s;
  }

  /** The label always reads back as the number of seconds it was made from. */
  lemma FormatTimeRoundTrip(t: nat)
    ensures ParseTime(FormatTime(t)) == Some(t)
  {
    var m := PadStart2(Decimal(t / 60));
    var s := PadStart2(Decimal(t % 60));
    PaddedDigits(t / 60);
    PaddedValue(t % 60);
    ParseFields(m, s);
    assert FormatTime(t) == m + [':'] + s;
    assert (t / 60) * 60 + t % 60 == t;
  }

  // ---------------------------------------------------------------------------
  // The recording rows
  // ---------------------------------------------------------------------------

  datatype RecordingItem = RecordingItem(id: int, url: string)

  /** The element ids of the recording rows: only the first row is the "voice-track" anchor. */
  function RowIds(n: nat): (ids: seq<Option<string>>)
    ensures |ids| == n
    ensures forall i :: 0 <= i < n ==> (ids[i] == Some("voice-track") <==> i == 0)
    ensures forall i :: 0 <= i < n ==> (ids[i].Some? <==> i == 0)
  {
    seq(n, i => if i == 0 then Some("voice-track") else None)
  }

  /** The row index after a deletion: one back when more than one recording exists, never below 0. */
  function IndexAfterDelete(prev: int, count: nat): (r: int)
    ensures r >= 0
    ensures count <= 1 ==> r == 0
    ensures count > 1 && prev >= 1 ==> r == prev - 1
    ensures count > 1 && prev < 1 ==> r == 0
  {
    if count > 1 then (if prev - 1 > 0 then prev - 1 else 0) else 0
  }

  // ---------------------------------------------------------------------------
  // The component's state and handlers
  // ---------------------------------------------------------------------------

  class Controls {
    // props, as last rendered
    var recordings: seq<RecordingItem>
    var maxRecordings: int
    var status: RecorderStatus
    // component state
    var currentRecordingIndex: int
    var canRecordMore: bool
    var showDeletePopup: bool
    var tempDisabled: bool
    /** Stops requested whose answer from the recorder is still awaited, one per click. */
    var pendingStops: nat
    /** Re-enable timers that have been started and not yet fired. */
    var enableTimers: nat
    /** Calls made to the recorder and the sound manager, in order. */
    var log: seq<Call>

    ghost predicate Valid()
      reads this
    {
      && canRecordMore == (|recordings| < maxRecordings)
      && currentRecordingIndex >= 0
      && (enableTimers == 0 ==> !tempDisabled)
    }

    /** Whether the start button is enabled (it is only rendered while the recorder is inactive). */
    predicate StartEnabled()
      reads this
    {
      status == Inactive && canRecordMore && !tempDisabled
    }

    constructor (recs: seq<RecordingItem>, max: int, st: RecorderStatus)
      ensures Valid()
      ensures recordings == recs && maxRecordings == max && status == st
      ensures currentRecordingIndex == 0 && canRecordMore == (|recs| < max)
      ensures !showDeletePopup && !tempDisabled && pendingStops == 0 && enableTimers == 0 && log == []
    {
      recordings, maxRecordings, status := recs, max, st;
      currentRecordingIndex := 0;
      canRecordMore := |recs| < max;
      showDeletePopup, tempDisabled, pendingStops := false, false, 0;
      enableTimers := 0;
      log := [];
    }

    /** New props from the parent, followed by the effect that recomputes canRecordMore. */
    method PropsChanged(recs: seq<RecordingItem>, max: int, st: RecorderStatus)
      requires Valid()
      modifies this`recordings, this`maxRecordings, this`status, this`canRecordMore
      ensures Valid()
      ensures recordings == recs && maxRecordings == max && status == st
      ensures canRecordMore == (|recs| < max)
    {
      recordings, maxRecordings, status := recs, max, st;
      canRecordMore := |recs| < max;
    }

    /** A click on the start button: silence every prompt, then start; a disabled button does nothing. */
    method ClickStart()
      requires Valid()
      modifies this`log
      ensures Valid()
      ensures old(StartEnabled()) ==> log == old(log) + [StopAllSounds, StartRecording]
      ensures !old(StartEnabled()) ==> log == old(log)
      ensures !canRecordMore ==> log == old(log)
    {
      if StartEnabled() {
        log := log + [StopAllSounds, StartRecording];
      }
    }

    /** A click on the stop button: asks the recorder to stop and waits; the start button stays as it was. */
    method ClickStop()
      requires Valid()
      modifies this`log, this`pendingStops
      ensures Valid()
      ensures old(status) != Inactive ==> log == old(log) + [StopRecording] && pendingStops == old(pendingStops) + 1
      ensures old(status) == Inactive ==> log == old(log) && pendingStops == old(pendingStops)
      ensures tempDisabled == old(tempDisabled)
    {
      if status != Inactive {
        log := log + [StopRecording];
        pendingStops := pendingStops + 1;
      }
    }

    /**
     * The recorder answered one awaited stop: only now does that click's handler
     * lock the start button and start its own 1000 ms timer, so every answered
     * stop locks the button again, even after an earlier timer has fired.
     */
    method StopSettled()
      requires Valid()
      modifies this`pendingStops, this`tempDisabled, this`enableTimers
      ensures Valid()
      ensures old(pendingStops) > 0 ==>
        pendingStops == old(pendingStops) - 1 && tempDisabled && enableTimers == old(enableTimers) + 1
      ensures old(pendingStops) == 0 ==>
        pendingStops == 0 && tempDisabled == old(tempDisabled) && enableTimers == old(enableTimers)
    {
      if pendingStops > 0 {
        pendingStops := pendingStops - 1;
        tempDisabled := true;
        enableTimers := enableTimers + 1;
      }
    }

    /** A 1000 ms re-enable timer fires. */
    method EnableTimerFired()
      requires Valid()
      modifies this`tempDisabled, this`enableTimers
      ensures Valid()
      ensures old(enableTimers) > 0 ==> !tempDisabled && enableTimers == old(enableTimers) - 1
      ensures old(enableTimers) == 0 ==> unchanged(this)
    {
      if enableTimers > 0 {
        tempDisabled := false;
        enableTimers := enableTimers - 1;
      }
    }

    /** The trash icon of a row opens the (single, shared) confirmation popup. */
    method ShowDeletePopup()
      modifies this`showDeletePopup
      ensures showDeletePopup
    {
      showDeletePopup := true;
    }

    /** "Mégse" closes the popup. */
    method CloseDeletePopup()
      modifies this`showDeletePopup
      ensures !showDeletePopup
    {
      showDeletePopup := false;
    }

    /** "Törlés": delete the recording, step the row index back and close the popup. */
    method ConfirmDelete(rec: RecordingItem)
      requires Valid()
      modifies this`log, this`currentRecordingIndex, this`showDeletePopup
      ensures Valid()
      ensures log == old(log) + [DeleteRecording(rec.id)]
      ensures currentRecordingIndex == IndexAfterDelete(old(currentRecordingIndex), |recordings|)
      ensures currentRecordingIndex >= 0 && !showDeletePopup
    {
      log := log + [DeleteRecording(rec.id)];
      currentRecordingIndex := IndexAfterDelete(currentRecordingIndex, |recordings|);
      showDeletePopup := false;
    }
  }

  /**
   * Two clicks on stop while recording, answered one after the other with the
   * first re-enable timer firing in between: the second answer locks the start
   * button again.
   */
  method SecondStopLocksAgain(recs: seq<RecordingItem>, max: int) returns (locked: bool)
    ensures locked
  {
    var c := new Controls(recs, max, Recording);
    c.ClickStop();
    c.ClickStop();
    c.StopSettled();
    c.EnableTimerFired();
    c.StopSettled();
    locked := c.tempDisabled;
  }
}
