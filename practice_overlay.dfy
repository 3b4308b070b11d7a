/**
 * The onboarding overlay of the practice round: seven help items shown one at a
 * time over a darkened screen with a cut-out around the item, a tooltip placed
 * relative to the item and clamped, and a button that advances (skipping the
 * voice-track step after the record step) or closes the overlay on the last step.
 */
module PracticeOverlay {
  import opened Common
  import opened Requests

  /** Offsets added to the item's rectangle to get the cut-out. */
  datatype Adjust = Adjust(top: real, left: real, right: real, bottom: real)

  datatype Side = Top | Bottom | Left | Right

  /** A help item: its element id, its tooltip offset from the item and its cut-out adjustment. */
  datatype HelpItem = HelpItem(id: string, side: Side, tipTop: real, tipLeft: real, clip: Adjust)

  const HelpItems: seq<HelpItem> := [
    HelpItem("true-progress", Bottom, 140.0, 100.0, Adjust(6.0, 0.0, 16.0, 14.0)),
    HelpItem("record-button", Right, -200.0, -40.0, Adjust(-60.0, -80.0, 80.0, 112.0)),
    HelpItem("voice-track", Right, -80.0, 135.0, Adjust(210.0, -10.0, 10.0, -15.0)),
    HelpItem("keyboard-toggle", Right, -200.0, 120.0, Adjust(-5.0, -35.0, 35.0, 8.0)),
    HelpItem("unknown-word", Left, -175.0, 120.0, Adjust(-5.0, -5.0, 5.0, 10.0)),
    HelpItem("questions-button", Left, 50.0, -220.0, Adjust(-10.0, -5.0, 5.0, 16.0)),
    HelpItem("next", Left, -200.0, 120.0, Adjust(-5.0, -5.0, 5.0, 10.0))
  ]

  /** Array.prototype.findIndex on the item ids: the first match, or -1. */
  function FindIndex(items: seq<HelpItem>, id: string): (r: int)
    ensures -1 <= r < |items|
    ensures r == -1 <==> forall j :: 0 <= j < |items| ==> items[j].id != id
    ensures r >= 0 ==> items[r].id == id && forall j :: 0 <= j < r ==> items[j].id != id
  {
    if items == [] then -1
    else if items[0].id == id then 0
    else
      var r := FindIndex(items[1..], id);
      if r == -1 then -1 else r + 1
  }

  /** The index of the record step. */
  const RecordIdx: int := 1
  /** The index of the closing step. */
  const LastIdx: int := 6

  /** The record step is where findIndex finds the record button. */
  lemma RecordStepIndex()
    ensures RecordIdx == FindIndex(HelpItems, "record-button")
  {
    assert HelpItems[0].id[0] != "record-button"[0];
    assert HelpItems[1].id == "record-button";
  }

  /** The closing step is the last of the seven items, where findIndex finds "next". */
  lemma LastStepIndex()
    ensures LastIdx == FindIndex(HelpItems, "next") && LastIdx == |HelpItems| - 1
  {
    forall j | 0 <= j < 6
      ensures HelpItems[j].id != "next"
    {
      assert |HelpItems[j].id| > 4;
    }
    assert HelpItems[6].id == "next";
  }

  /** The rendered step: the current step clamped to the items. */
  function ClampStep(current: int): (i: nat)
    ensures i < |HelpItems|
    ensures 0 <= current < |HelpItems| ==> i == current
    ensures current < 0 ==> i == 0
    ensures current >= |HelpItems| ==> i == |HelpItems| - 1
  {
    if current < 0 then 0 else if current > |HelpItems| - 1 then |HelpItems| - 1 else current
  }

  /** What a click on the button does. */
  datatype ButtonAction = CloseOverlay | SetCurrent(step: int)

  /**
   * The button: on the last (clamped) step it closes; on the record step it
   * advances by two, skipping the voice-track step; otherwise by one.
   */
  function NextButton(current: int): (a: ButtonAction)
    ensures a == CloseOverlay <==> ClampStep(current) == LastIdx
    ensures a.SetCurrent? && current == RecordIdx ==> a.step == current + 2
    ensures a.SetCurrent? && current != RecordIdx ==> a.step == current + 1
  {
    if ClampStep(current) == LastIdx then CloseOverlay
    else if current == RecordIdx then SetCurrent(current + 2)
    else SetCurrent(current + 1)
  }

  /** The button's label. */
  function ButtonLabel(current: int): (s: string)
    ensures s == "Bezárás" <==> current == LastIdx
    ensures s != "Bezárás" ==> s == "Tovább"
  {
    if current == LastIdx then "Bezárás" else "Tovább"
  }

  /** On every step the overlay can be on, the label says "Bezárás" exactly when the click closes. */
  lemma LabelMatchesAction(current: int)
    requires 0 <= current < |HelpItems|
    ensures ButtonLabel(current) == "Bezárás" <==> NextButton(current) == CloseOverlay
  {
  }

  /** From any step a click closes the overlay or moves to another step of the overlay, never onto voice-track. */
  lemma ButtonKeepsStepInRange(current: int)
    requires 0 <= current < |HelpItems|
    ensures NextButton(current).SetCurrent? ==>
      current < NextButton(current).step < |HelpItems| && NextButton(current).step != 2
  {
  }

  /** The steps visited by clicking the button from `current` until the overlay closes (at most `fuel` clicks). */
  function ClickPath(current: int, fuel: nat): seq<int>
    decreases fuel
  {
    if fuel == 0 then [current]
    else match NextButton(current)
      case CloseOverlay => [current]
      case SetCurrent(n) => [current] + ClickPath(n, fuel - 1)
  }

  /** Clicking through from the first step shows five more steps, skips voice-track, and closes on the last. */
  lemma ClickThrough()
    ensures ClickPath(0, 10) == [0, 1, 3, 4, 5, 6]
    ensures NextButton(6) == CloseOverlay
  {
    assert ClickPath(6, 5) == [6];
    assert ClickPath(5, 6) == [5, 6];
    assert ClickPath(4, 7) == [4, 5, 6];
    assert ClickPath(3, 8) == [3, 4, 5, 6];
    assert ClickPath(1, 9) == [1, 3, 4, 5, 6];
  }

  /**
   * From any step, clicking through visits strictly later steps, never lands
   * on voice-track, and reaches the last step, where the next click closes.
   */
  lemma {:induction false} ClickPathReachesLast(current: int, fuel: nat)
    requires 0 <= current < |HelpItems| && fuel >= LastIdx - current
    ensures var p := ClickPath(current, fuel);
      && p[0] == current && p[|p| - 1] == LastIdx
      && (forall i :: 0 < i < |p| ==> p[i - 1] < p[i] && p[i] != 2)
    decreases fuel
  {
    if current != LastIdx {
      ButtonKeepsStepInRange(current);
      var n := NextButton(current).step;
      ClickPathReachesLast(n, fuel - 1);
      var q := ClickPath(n, fuel - 1);
      var p := ClickPath(current, fuel);
      assert p == [current] + q;
      forall i | 0 < i < |p|
        ensures p[i - 1] < p[i] && p[i] != 2
      {
        assert p[i] == q[i - 1];
        if i > 1 { assert p[i - 1] == q[i - 2]; }
      }
    }
  }

  /** Whether the auto-advance effect fires: shown, on the record step, with a recording. */
  predicate AutoAdvanceFires(show: bool, current: int, recordings: nat) {
    show && current == RecordIdx && recordings > 0
  }

  /**
   * The overlay's step, which is the parent's `currentStep` prop, with the
   * requests the overlay makes. A click hands the new step to the parent, and
   * the parent's next render passes it back as the prop.
   */
  class Overlay {
    var current: int
    var closed: bool
    var log: seq<Call>

    ghost predicate Valid()
      reads this
    {
      0 <= current < |HelpItems|
    }

    /** The first render with the parent's step (the parent starts it at 0). */
    constructor (currentStep: int)
      requires 0 <= currentStep < |HelpItems|
      ensures Valid() && current == currentStep && !closed && log == []
    {
      current, closed, log := currentStep, false, [];
    }

    /** A render with a new `currentStep` prop, as when the parent jumps to the questions step. */
    method StepPropChanged(currentStep: int)
      requires 0 <= currentStep < |HelpItems|
      modifies this`current
      ensures Valid() && current == currentStep
    {
      current := currentStep;
    }

    /** A click on the button. */
    method Click()
      requires Valid()
      modifies this`current, this`closed
      ensures Valid()
      ensures NextButton(old(current)) == CloseOverlay ==> closed && current == old(current)
      ensures NextButton(old(current)).SetCurrent? ==> current == NextButton(old(current)).step && closed == old(closed)
    {
      var idx := ClampStep(current);
      if idx == LastIdx {
        closed := true;
      } else if current == RecordIdx {
        current := current + 2;
      } else {
        current := current + 1;
      }
    }

    /** The auto-advance effect: once a recording exists on the record step, request the demonstration and move on by one. */
    method AutoAdvanceEffect(show: bool, recordings: nat)
      requires Valid()
      modifies this`current, this`log
      ensures Valid()
      ensures AutoAdvanceFires(show, old(current), recordings) ==>
        current == old(current) + 1 && log == old(log) + [PlayGroup("felvetelBemutato", true)]
      ensures !AutoAdvanceFires(show, old(current), recordings) ==> current == old(current) && log == old(log)
    {
      if show && current == RecordIdx && recordings > 0 {
        log := log + [PlayGroup("felvetelBemutato", true)];
        current := current + 1;
      }
    }
  }

  // ---------------------------------------------------------------------------
  // Cut-out and tooltip arithmetic
  // ---------------------------------------------------------------------------

  /** The edges of a box in viewport coordinates. */
  datatype Box = Box(top: real, left: real, right: real, bottom: real)

  /** The cut-out around the item: each edge of the item's rectangle moved by the item's adjustment. */
  function Cutout(r: Rect, a: Adjust): (b: Box)
    ensures b.top - r.top == a.top && b.bottom - r.Bottom() == a.bottom
    ensures b.left - r.left == a.left && b.right - r.Right() == a.right
  {
    Box(r.top + a.top, r.left + a.left, r.Right() + a.right, r.Bottom() + a.bottom)
  }

  /** An adjustment that moves every edge outwards (or leaves it). */
  predicate Outward(a: Adjust) {
    a.top <= 0.0 && a.left <= 0.0 && a.right >= 0.0 && a.bottom >= 0.0
  }

  /**
   * Every cut-out except the progress bar's (which starts 6 px below its top) and
   * the voice track's (shifted 210 px down) contains the whole item.
   */
  lemma CutoutEnclosesItem(i: nat, r: Rect)
    requires i < |HelpItems|
    ensures Outward(HelpItems[i].clip) <==> i != 0 && i != 2
    ensures Outward(HelpItems[i].clip) ==>
      var b := Cutout(r, HelpItems[i].clip);
      b.top <= r.top && b.left <= r.left && r.Right() <= b.right && r.Bottom() <= b.bottom
  {
  }

  /** Clamps a tooltip coordinate into [lo, hi - size]: Math.max(lo, Math.min(raw, hi - size)). */
  function ClampInside(raw: real, lo: real, hi: real, size: real): real {
    Max(lo, Min(raw, hi - size))
  }

  /** The clamp keeps the tooltip at or after the container's start, inside it when it fits, and moves it only when needed. */
  lemma ClampInsideBounds(raw: real, lo: real, hi: real, size: real)
    ensures ClampInside(raw, lo, hi, size) >= lo
    ensures hi - lo >= size ==> ClampInside(raw, lo, hi, size) + size <= hi
    ensures lo <= raw && raw + size <= hi ==> ClampInside(raw, lo, hi, size) == raw
  {
  }

  /**
   * The last step's clamp as written, Math.min(Math.max(raw), limit - size): the
   * one-argument Math.max returns its argument, so only the upper bound applies.
   */
  function LastClampAsWritten(raw: real, limit: real, size: real): real {
    Min(raw, limit - size)
  }

  /** As written, the last tooltip is kept from overflowing on the far side only. */
  lemma LastClampAsWrittenBounds(raw: real, limit: real, size: real)
    ensures LastClampAsWritten(raw, limit, size) <= limit - size
    ensures raw <= limit - size ==> LastClampAsWritten(raw, limit, size) == raw
  {
  }

  /** A tooltip that starts 50 px off the screen stays off the screen. */
  lemma LastClampAsWrittenLeavesScreen()
    ensures LastClampAsWritten(-50.0, 800.0, 100.0) == -50.0
  {
  }

  /** The last step's clamp with the missing lower bound 0: the tooltip stays inside the viewport. */
  function LastClamp(raw: real, limit: real, size: real): real {
    Min(Max(raw, 0.0), limit - size)
  }

  lemma LastClampBounds(raw: real, limit: real, size: real)
    ensures LastClamp(raw, limit, size) <= limit - size
    ensures limit >= size ==> 0.0 <= LastClamp(raw, limit, size)
    ensures 0.0 <= raw && raw + size <= limit ==> LastClamp(raw, limit, size) == raw
  {
  }

  /** The tooltip's size once rendered (the ref is empty before the first render). */
  datatype TipSize = Unmeasured | Measured(width: real, height: real)

  /**
   * The tooltip position for a step: the item's rectangle plus the item's offsets,
   * clamped into the viewport on the last step (far side only, as written) and
   * into the container otherwise.
   */
  function TooltipPosition(current: nat, r: Rect, container: Rect, tip: TipSize,
                           innerWidth: real, innerHeight: real): (p: (real, real))
    requires current < |HelpItems|
    ensures tip.Unmeasured? ==> p == (r.top + HelpItems[current].tipTop, r.left + HelpItems[current].tipLeft)
    ensures tip.Measured? && current != LastIdx ==>
      p.0 >= container.top && p.1 >= container.left
      && (container.height >= tip.height ==> p.0 + tip.height <= container.Bottom())
      && (container.width >= tip.width ==> p.1 + tip.width <= container.Right())
    ensures tip.Measured? && current == LastIdx ==>
      p.0 + tip.height <= innerHeight && p.1 + tip.width <= innerWidth
      && (r.top + HelpItems[current].tipTop + tip.height <= innerHeight ==> p.0 == r.top + HelpItems[current].tipTop)
      && (r.left + HelpItems[current].tipLeft + tip.width <= innerWidth ==> p.1 == r.left + HelpItems[current].tipLeft)
  {
    var item := HelpItems[current];
    var rawTop := r.top + item.tipTop;
    var rawLeft := r.left + item.tipLeft;
    match tip
    case Unmeasured => (rawTop, rawLeft)
    case Measured(w, h) =>
      if current == LastIdx then
        LastClampAsWrittenBounds(rawTop, innerHeight, h);
        LastClampAsWrittenBounds(rawLeft, innerWidth, w);
        (LastClampAsWritten(rawTop, innerHeight, h), LastClampAsWritten(rawLeft, innerWidth, w))
      else
        ClampInsideBounds(rawTop, container.top, container.Bottom(), h);
        ClampInsideBounds(rawLeft, container.left, container.Right(), w);
        (ClampInside(rawTop, container.top, container.Bottom(), h),
         ClampInside(rawLeft, container.left, container.Right(), w))
  }

  /**
   * On the last step a tooltip whose element sits so that the raw position is
   * 50 px left of the screen is drawn 50 px left of the screen, although the
   * viewport is wide enough for it.
   */
  lemma TooltipPositionLeavesScreen(r: Rect, container: Rect)
    requires r.top == 100.0 && r.left == -50.0 - HelpItems[LastIdx].tipLeft
    ensures var p := TooltipPosition(LastIdx, r, container, Measured(200.0, 50.0), 800.0, 600.0);
      p.1 == -50.0 && p.1 < 0.0
  {
    LastClampAsWrittenLeavesScreen();
  }

  /** The intended position: as TooltipPosition, with the last step clamped on both sides. */
  function TooltipPositionIntended(current: nat, r: Rect, container: Rect, tip: TipSize,
                                   innerWidth: real, innerHeight: real): (p: (real, real))
    requires current < |HelpItems|
    ensures current != LastIdx || tip.Unmeasured? ==>
      p == TooltipPosition(current, r, container, tip, innerWidth, innerHeight)
    ensures tip.Measured? && current == LastIdx ==>
      p.0 + tip.height <= innerHeight && p.1 + tip.width <= innerWidth
      && (innerHeight >= tip.height ==> p.0 >= 0.0) && (innerWidth >= tip.width ==> p.1 >= 0.0)
  {
    if tip.Measured? && current == LastIdx then
      var rawTop := r.top + HelpItems[current].tipTop;
      var rawLeft := r.left + HelpItems[current].tipLeft;
      LastClampBounds(rawTop, innerHeight, tip.height);
      LastClampBounds(rawLeft, innerWidth, tip.width);
      (LastClamp(rawTop, innerHeight, tip.height), LastClamp(rawLeft, innerWidth, tip.width))
    else TooltipPosition(current, r, container, tip, innerWidth, innerHeight)
  }
}
