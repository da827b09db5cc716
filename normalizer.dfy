/** The event normaliser of the event proxy: the per-button press table, the
    click-versus-drag filter, the mouseup target corrector, and the record built
    for every event that survives them. This module is the specification the
    `sendEvent` method of class Proxy.EventProxy is proved against. */
module Normalizer {
  import opened Wrappers
  import opened Browser
  import opened Locators

  /** A captured native event (`click dblclick mousedown mouseup mousemove keydown
      keyup`). Key events carry `keyIdentifier` and `location`; mouse events
      leave them `undefined` (None). Key events have no `button`, `buttons`,
      `clientX` or `clientY`: for them those four fields are ignored (see
      IsKeyEvent and BuildRecord). */
  datatype DomEvent = DomEvent(
    eventType: string,
    button: int,
    buttons: int,
    clientX: int,
    clientY: int,
    altKey: bool,
    ctrlKey: bool,
    metaKey: bool,
    shiftKey: bool,
    keyIdentifier: Option<string>,
    location: Option<int>,
    target: NodeId)

  /** `lastMouseDown[button]`: the press's coordinates and the elements under
      the press point, topmost first. */
  datatype PressSnapshot = PressSnapshot(clientX: int, clientY: int, elements: seq<NodeId>)

  /** The normalised record sent to the recorder. The pointer fields are None
      for key events: `undefined` for the four copied fields, and NaN for
      `elementX`/`elementY`, which subtract the rectangle from `undefined`. */
  datatype EventRecord = EventRecord(
    altKey: bool,
    button: Option<int>,
    buttons: Option<int>,
    ctrlKey: bool,
    clientX: Option<int>,
    clientY: Option<int>,
    elementX: Option<int>,
    elementY: Option<int>,
    keyIdentifier: Option<string>,
    location: Option<int>,
    metaKey: bool,
    shiftKey: bool,
    target: string,
    targetFrame: seq<int>,
    eventType: string)

  /** Which resolver `getTargetInfo` holds: none yet, `getElementXPathInfo`, or
      `getElementTextPathInfo`. */
  datatype Strategy = Unset | XPath | Text

  /** Why `sendEvent` stops without sending: no strategy yet, a click or mouseup
      with no press recorded for its button, or a mouseup whose corrected target
      is `undefined`. */
  datatype Failure = NoStrategy | NoPressSnapshot | NoTarget

  datatype Outcome = Dropped | Failed(reason: Failure) | Emitted(record: EventRecord)

  /** The two captured key events; the other five captured types are mouse
      events. */
  predicate IsKeyEvent(ev: DomEvent) {
    ev.eventType == "keydown" || ev.eventType == "keyup"
  }

  /** A pointer field of `ev` as the record holds it: absent for key events. */
  function PointerField(ev: DomEvent, v: int): Option<int> {
    if IsKeyEvent(ev) then None else Some(v)
  }

  function Abs(x: int): nat {
    if x < 0 then -x else x
  }

  // ------------------------------------------------------------- drag filter

  /** `isDragEvent` as written: in `Math.abs(event.clientY - … > 5)` the
      comparison happens inside `Math.abs`, so the vertical test is the one-sided
      `dy > 5`. */
  function IsDragAsWritten(ev: DomEvent, press: PressSnapshot): (b: bool)
    ensures Abs(ev.clientX - press.clientX) <= 5 && ev.clientY <= press.clientY ==> !b
  {
    Abs(ev.clientX - press.clientX) > 5 || ev.clientY - press.clientY > 5
  }

  /** The drag test the code evidently intends: the pointer moved more than five
      pixels along either axis, in either direction. */
  function IsDrag(ev: DomEvent, press: PressSnapshot): (b: bool)
    ensures !b <==> press.clientX - 5 <= ev.clientX <= press.clientX + 5 && press.clientY - 5 <= ev.clientY <= press.clientY + 5
  {
    Abs(ev.clientX - press.clientX) > 5 || Abs(ev.clientY - press.clientY) > 5
  }

  // -------------------------------------------------------- target corrector

  /** The mouseup correction on the press-time and release-time hit stacks: the
      release element at the first position where the two differ, the body when
      they agree on every press position, and `undefined` (None) when the release
      stack ends before the first difference. */
  function DragTarget(press: seq<NodeId>, release: seq<NodeId>, body: NodeId): (r: Option<NodeId>)
    ensures r.Some? ==> r.value == body || r.value in release
  {
    if press == [] then Some(body)
    else if release == [] then None
    else if press[0] != release[0] then Some(release[0])
    else DragTarget(press[1..], release[1..], body)
  }

  // ----------------------------------------------------------------- records

  /** What the browser must answer consistently for `ev`: its target and the
      elements under its point are nodes of the document. */
  predicate Consistent(page: Page, ev: DomEvent) {
    && ev.target in page.doc.nodes
    && forall k | 0 <= k < |page.hits(ev.clientX, ev.clientY)| :: page.hits(ev.clientX, ev.clientY)[k] in page.doc.nodes
  }

  /** `this.getTargetInfo(target)`. */
  function TargetInfo(strategy: Strategy, xpathBuilder: Option<string>, page: Page, target: NodeId): (r: Locator)
    requires strategy != Unset && Valid(page.doc) && target in page.doc.nodes
    ensures strategy == Text || !HasBuilder(page, xpathBuilder) ==> r.element == target
    ensures r.element == target || r.element == page.doc.body || r.element in BuilderChain(page.doc, target)
  {
    if strategy == XPath then XPathInfo(page, xpathBuilder, target, false)
    else TextPathInfo(page, xpathBuilder, target)
  }

  /** The element the record is about: the corrected target for a mouseup, the
      native target otherwise. */
  function RecordTarget(table: map<int, PressSnapshot>, page: Page, ev: DomEvent): (r: Result<NodeId, Failure>)
    requires Valid(page.doc) && Consistent(page, ev)
    ensures r.Ok? ==> r.value in page.doc.nodes
  {
    if ev.eventType == "mouseup" then
      if ev.button !in table then Err(NoPressSnapshot)
      else match DragTarget(table[ev.button].elements, page.hits(ev.clientX, ev.clientY), page.doc.body)
        case None => Err(NoTarget)
        case Some(t) => Ok(t)
    else Ok(ev.target)
  }

  /** The record built from `ev` once its locator is known. */
  function BuildRecord(ev: DomEvent, info: Locator, rect: Rect): (r: EventRecord)
    ensures IsKeyEvent(ev) <==> r.clientX.None?
    ensures r.elementX.None? <==> r.clientX.None?
    ensures r.elementY.None? <==> r.clientY.None?
    ensures r.elementX.Some? ==> r.elementX.value + rect.left == r.clientX.value
    ensures r.elementY.Some? ==> r.elementY.value + rect.top == r.clientY.value
  {
    EventRecord(
      ev.altKey, PointerField(ev, ev.button), PointerField(ev, ev.buttons), ev.ctrlKey,
      PointerField(ev, ev.clientX), PointerField(ev, ev.clientY),
      PointerField(ev, ev.clientX - rect.left), PointerField(ev, ev.clientY - rect.top),
      ev.keyIdentifier, ev.location, ev.metaKey, ev.shiftKey,
      info.path, [], ev.eventType)
  }

  /** What `sendEvent` does with `ev`, given the strategy, the custom builder
      name and the press table it finds, with the click filter's vertical test
      corrected to the two-sided `IsDrag`. */
  function Normalize(strategy: Strategy, xpathBuilder: Option<string>, table: map<int, PressSnapshot>,
                     page: Page, ev: DomEvent): (r: Outcome)
    requires Valid(page.doc) && Consistent(page, ev)
    ensures r == Dropped ==> ev.eventType == "click"
    ensures r.Emitted? ==> strategy != Unset && r.record.targetFrame == [] && r.record.eventType == ev.eventType
  {
    if strategy == Unset then Failed(NoStrategy)
    else if ev.eventType == "click" && ev.button !in table then Failed(NoPressSnapshot)
    else if ev.eventType == "click" && IsDrag(ev, table[ev.button]) then Dropped
    else match RecordTarget(table, page, ev)
      case Err(f) => Failed(f)
      case Ok(target) =>
        var info := TargetInfo(strategy, xpathBuilder, page, target);
        Emitted(BuildRecord(ev, info, page.rect(info.element)))
  }

  /** The press table after `sendEvent` handled `ev`. */
  function NextTable(strategy: Strategy, table: map<int, PressSnapshot>, page: Page, ev: DomEvent): (r: map<int, PressSnapshot>)
    ensures table.Keys <= r.Keys <= table.Keys + {ev.button}
  {
    if strategy != Unset && ev.eventType == "mousedown" then
      table[ev.button := PressSnapshot(ev.clientX, ev.clientY, page.hits(ev.clientX, ev.clientY))]
    else table
  }
}
