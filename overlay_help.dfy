/**
 * The help overlay of the game screen: a tooltip next to each of six screen
 * elements, placed on the element's side, clamped into the viewport, and shown
 * only while the element is on screen. In typing mode two tooltips show their
 * alternative text.
 */
module OverlayHelp {
  import opened Common
  import opened Requests

  datatype Side = BottomSide | RightSide | LeftSide | OtherSide

  datatype HelpItem = HelpItem(id: string, text: string, alternativeText: Option<string>, side: Side)

  const HelpItems: seq<HelpItem> := [
    HelpItem("sun-icon",
      "Egy nap 10 fogalom megtanítására van lehetőség, mielőtt Mimó elfárad. Azonban nem szükséges mind a 10 fogalmat megtanítani.",
      None, BottomSide),
    HelpItem("record-button",
      "A gombbal felveheti gyermeke válaszait. Adatfelvételünkhöz legalább öt, legfeljebb 15 tulajdonság megnevezését várjuk.",
      Some("Ezekbe a mezőkbe gépelheti be gyermeke válaszait."), RightSide),
    HelpItem("next-questions",
      "Néhány további kérdéssel segítjük a válaszadást. Nem szükséges mindegyiket felolvasni, ha már válaszolt a gyermek.",
      None, LeftSide),
    HelpItem("keyboard-toggle",
      "Áttérhetnek billentyűzetre, ha nem kényelmes felvenni a gyermek hangját.",
      Some("Visszatérhetnek a hangfelvételhez, ha van lehetőségük rá."), RightSide),
    HelpItem("unknown-word",
      "Amennyiben gyermeke nem ismeri a fogalmat, kihagyhatják azt.",
      None, LeftSide),
    HelpItem("questions-button",
      "A gomb segítségével megnézheti Mimó leggyakoribb kérdéseit, amely segíthet gyermeke válaszadásában.",
      None, RightSide)
  ]

  const TooltipWidth: real := 250.0
  const TooltipHeight: real := 50.0
  const Spacing: real := 10.0

  /** The tooltip's unclamped position (top, left) on the item's side of the element. */
  function Anchor(side: Side, r: Rect): (p: (real, real))
    ensures side == BottomSide ==> p == (r.Bottom() + 10.0, r.left + r.width / 2.0)
    ensures side == RightSide ==> p == (r.top + r.height / 2.0 - 25.0, r.Right() + 10.0)
    ensures side == LeftSide ==> p == (r.top + r.height / 2.0 - 25.0, r.left - 260.0)
    ensures side == OtherSide ==> p == (r.top + 10.0, r.left + 10.0)
  {
    match side
    case BottomSide => (r.Bottom() + Spacing, r.left + r.width / 2.0)
    case RightSide => (r.top + r.height / 2.0 - TooltipHeight / 2.0, r.Right() + Spacing)
    case LeftSide => (r.top + r.height / 2.0 - TooltipHeight / 2.0, r.left - TooltipWidth - Spacing)
    case OtherSide => (r.top + Spacing, r.left + Spacing)
  }

  /** The two viewport checks in order: overflow at the far edge moves it back 10 px inside, then a negative value becomes 10. */
  function ClampAxis(x: real, size: real, limit: real): real {
    var a := if x + size > limit then limit - size - 10.0 else x;
    if a < 0.0 then 10.0 else a
  }

  /**
   * The clamped coordinate is never negative; it keeps the tooltip inside the
   * viewport whenever the viewport is at least the tooltip plus 10 px; and a
   * tooltip that already fits is not moved.
   */
  lemma ClampAxisBounds(x: real, size: real, limit: real)
    requires size >= 0.0
    ensures ClampAxis(x, size, limit) >= 0.0
    ensures limit >= size + 10.0 ==> ClampAxis(x, size, limit) + size <= limit
    ensures 0.0 <= x && x + size <= limit ==> ClampAxis(x, size, limit) == x
  {
  }

  /** The tooltip's top stays inside a viewport of at least 60 px, its left inside one of at least 260 px. */
  lemma TooltipInsideViewport(top: real, left: real, innerWidth: real, innerHeight: real)
    ensures ClampAxis(top, TooltipHeight, innerHeight) >= 0.0 && ClampAxis(left, TooltipWidth, innerWidth) >= 0.0
    ensures innerHeight >= 60.0 ==> ClampAxis(top, TooltipHeight, innerHeight) + TooltipHeight <= innerHeight
    ensures innerWidth >= 260.0 ==> ClampAxis(left, TooltipWidth, innerWidth) + TooltipWidth <= innerWidth
  {
    ClampAxisBounds(top, TooltipHeight, innerHeight);
    ClampAxisBounds(left, TooltipWidth, innerWidth);
  }

  /** A placed tooltip. */
  datatype Placed = Placed(id: string, top: real, left: real, side: Side, visible: bool)

  /** An element is on screen when its bottom is below the viewport's top and its top above the viewport's bottom. */
  predicate OnScreen(r: Rect, innerHeight: real) {
    r.Bottom() > 0.0 && r.top < innerHeight
  }

  /** The tooltip of one item whose element was found. */
  function Place(item: HelpItem, r: Rect, innerWidth: real, innerHeight: real): (p: Placed)
    ensures p.id == item.id && p.side == item.side
    ensures p.visible <==> OnScreen(r, innerHeight)
    ensures p.top >= 0.0 && p.left >= 0.0
    ensures innerHeight >= 60.0 ==> p.top + TooltipHeight <= innerHeight
    ensures innerWidth >= 260.0 ==> p.left + TooltipWidth <= innerWidth
  {
    var a := Anchor(item.side, r);
    TooltipInsideViewport(a.0, a.1, innerWidth, innerHeight);
    Placed(item.id, ClampAxis(a.0, TooltipHeight, innerHeight), ClampAxis(a.1, TooltipWidth, innerWidth),
           item.side, OnScreen(r, innerHeight))
  }

  /** The indices of the items whose element was found, in item order. */
  function FoundIndices(rects: seq<Option<Rect>>): (idx: seq<nat>)
    ensures forall k :: 0 <= k < |idx| ==> idx[k] < |rects| && rects[idx[k]].Some?
    ensures forall k, l :: 0 <= k < l < |idx| ==> idx[k] < idx[l]
    ensures forall i :: 0 <= i < |rects| && rects[i].Some? ==> i in idx
  {
    if rects == [] then []
    else
      var n := |rects| - 1;
      var front := FoundIndices(rects[..n]);
      assert forall i :: 0 <= i < n && rects[..n][i].Some? ==> i in front;
      front + (if rects[n].Some? then [n] else [])
  }

  /**
   * updatePositions: each item is placed when its element is found (`rects[i]`
   * is the element's rectangle, None when querySelector finds nothing), and the
   * missing ones are filtered out.
   */
  function Positions(items: seq<HelpItem>, rects: seq<Option<Rect>>, innerWidth: real, innerHeight: real): seq<Placed>
    requires |items| == |rects|
    decreases |items|
  {
    if items == [] then []
    else
      var n := |items| - 1;
      Positions(items[..n], rects[..n], innerWidth, innerHeight)
        + (if rects[n].Some? then [Place(items[n], rects[n].value, innerWidth, innerHeight)] else [])
  }

  /** The output holds exactly the found items, each placed from its own rectangle, in item order. */
  lemma {:induction false} PositionsKeepOrder(items: seq<HelpItem>, rects: seq<Option<Rect>>, innerWidth: real, innerHeight: real)
    requires |items| == |rects|
    ensures var idx := FoundIndices(rects); var out := Positions(items, rects, innerWidth, innerHeight);
      |out| == |idx|
      && forall k :: 0 <= k < |idx| ==> out[k] == Place(items[idx[k]], rects[idx[k]].value, innerWidth, innerHeight)
    decreases |items|
  {
    if items != [] {
      var n := |items| - 1;
      PositionsKeepOrder(items[..n], rects[..n], innerWidth, innerHeight);
      var front := FoundIndices(rects[..n]);
      var outFront := Positions(items[..n], rects[..n], innerWidth, innerHeight);
      var idx := FoundIndices(rects);
      var out := Positions(items, rects, innerWidth, innerHeight);
      assert idx == front + (if rects[n].Some? then [n] else []);
      assert out == outFront + (if rects[n].Some? then [Place(items[n], rects[n].value, innerWidth, innerHeight)] else []);
      forall k | 0 <= k < |idx|
        ensures out[k] == Place(items[idx[k]], rects[idx[k]].value, innerWidth, innerHeight)
      {
        if k < |front| {
          assert out[k] == outFront[k] && idx[k] == front[k];
          assert items[..n][front[k]] == items[front[k]] && rects[..n][front[k]] == rects[front[k]];
        }
      }
    }
  }

  /** Every placed tooltip lies inside a viewport of at least 260 by 60 px. */
  lemma {:induction false} PositionsInsideViewport(items: seq<HelpItem>, rects: seq<Option<Rect>>, innerWidth: real, innerHeight: real)
    requires |items| == |rects|
    requires innerWidth >= 260.0 && innerHeight >= 60.0
    ensures forall p :: p in Positions(items, rects, innerWidth, innerHeight) ==>
      0.0 <= p.top && p.top + TooltipHeight <= innerHeight && 0.0 <= p.left && p.left + TooltipWidth <= innerWidth
  {
    PositionsKeepOrder(items, rects, innerWidth, innerHeight);
  }

  /** The tooltip text: typing mode shows the alternative text of the record button and the keyboard toggle. */
  function TooltipText(item: HelpItem, mode: Mode): (s: Option<string>)
    ensures (item.id == "record-button" || item.id == "keyboard-toggle") && mode == Text ==> s == item.alternativeText
    ensures !((item.id == "record-button" || item.id == "keyboard-toggle") && mode == Text) ==> s == Some(item.text)
  {
    if item.id == "record-button" && mode == Text then item.alternativeText
    else if item.id == "keyboard-toggle" && mode == Text then item.alternativeText
    else Some(item.text)
  }

  /** Every item of the overlay has a text in both modes: exactly the two switched items carry an alternative. */
  lemma TooltipTextDefined(i: nat, mode: Mode)
    requires i < |HelpItems|
    ensures HelpItems[i].alternativeText.Some? <==> HelpItems[i].id == "record-button" || HelpItems[i].id == "keyboard-toggle"
    ensures TooltipText(HelpItems[i], mode).Some?
  {
  }

  /** The item with a given id (helpItems.find); ids are unique, so it is the item itself. */
  function FindItem(items: seq<HelpItem>, id: string): (r: Option<HelpItem>)
    ensures r.Some? ==> r.value in items && r.value.id == id
    ensures r.None? ==> forall j :: 0 <= j < |items| ==> items[j].id != id
  {
    if items == [] then None
    else if items[0].id == id then Some(items[0])
    else FindItem(items[1..], id)
  }

  lemma FindOwnItem(i: nat)
    requires i < |HelpItems|
    ensures FindItem(HelpItems, HelpItems[i].id) == Some(HelpItems[i])
  {
    assert forall j, k :: 0 <= j < k < |HelpItems| ==> HelpItems[j].id != HelpItems[k].id;
    FindUnique(HelpItems, i);
  }

  lemma {:induction false} FindUnique(items: seq<HelpItem>, i: nat)
    requires i < |items|
    requires forall j, k :: 0 <= j < k < |items| ==> items[j].id != items[k].id
    ensures FindItem(items, items[i].id) == Some(items[i])
  {
    if i > 0 {
      assert items[0].id != items[i].id;
      FindUnique(items[1..], i - 1);
    }
  }

  /** The text a placed tooltip shows, found through its item among `items` (None when there is nothing to show). */
  function TextOf(items: seq<HelpItem>, id: string, mode: Mode): Option<string> {
    match FindItem(items, id)
    case None => None
    case Some(item) => TooltipText(item, mode)
  }

  /** A tooltip placed for one of the overlay's own items shows that item's text, in either mode. */
  lemma OwnTextShown(i: nat, mode: Mode)
    requires i < |HelpItems|
    ensures TextOf(HelpItems, HelpItems[i].id, mode) == TooltipText(HelpItems[i], mode)
    ensures TextOf(HelpItems, HelpItems[i].id, mode).Some?
  {
    FindOwnItem(i);
    TooltipTextDefined(i, mode);
  }

  /** The tooltips drawn (the overlay passes its `HelpItems`): the visible ones that have a text, in order, each with its text. */
  function Rendered(items: seq<HelpItem>, positions: seq<Placed>, mode: Mode): (r: seq<(Placed, string)>)
    ensures |r| <= |positions|
  {
    if positions == [] then []
    else
      var rest := Rendered(items, positions[1..], mode);
      var p := positions[0];
      var text := TextOf(items, p.id, mode);
      if p.visible && text.Some? then [(p, text.value)] + rest else rest
  }

  /** Every drawn tooltip is a visible placed one with its item's text, and every visible one with a text is drawn. */
  lemma {:induction false} RenderedSpec(items: seq<HelpItem>, positions: seq<Placed>, mode: Mode)
    ensures var r := Rendered(items, positions, mode);
      && (forall k :: 0 <= k < |r| ==> r[k].0 in positions && r[k].0.visible && TextOf(items, r[k].0.id, mode) == Some(r[k].1))
      && (forall p :: p in positions && p.visible && TextOf(items, p.id, mode).Some? ==> exists k :: 0 <= k < |r| && r[k].0 == p)
  {
    if positions != [] {
      var tail := positions[1..];
      RenderedSpec(items, tail, mode);
      var rest := Rendered(items, tail, mode);
      var r := Rendered(items, positions, mode);
      var p := positions[0];
      var drawn := p.visible && TextOf(items, p.id, mode).Some?;
      forall q | q in positions && q.visible && TextOf(items, q.id, mode).Some?
        ensures exists k :: 0 <= k < |r| && r[k].0 == q
      {
        if q == p {
          assert r[0].0 == q;
        } else {
          assert q in tail;
          var k :| 0 <= k < |rest| && rest[k].0 == q;
          if drawn {
            assert r[k + 1].0 == q;
          } else {
            assert r[k].0 == q;
          }
        }
      }
      forall k | 0 <= k < |r|
        ensures r[k].0 in positions && r[k].0.visible && TextOf(items, r[k].0.id, mode) == Some(r[k].1)
      {
        if drawn && k > 0 {
          assert r[k] == rest[k - 1];
        }
      }
    }
  }
}
