/** The frame relay of the event proxy: `send` routes a record to the parent
    window or, at the top window, to the recorder's port; `passEvent` accepts a
    relayed record from a child frame and stamps the child's index on it. */
module FrameRelay {
  import opened Wrappers
  import opened Normalizer

  type WindowId = int

  /** The window the proxy runs in: whether it is `window.top`, and its child
      frames `window.frames` in index order. */
  datatype Window = Window(isTop: bool, frames: seq<WindowId>)

  /** `event.data` of a cross-document message, when it is an object. */
  datatype MessageData = MessageData(methodName: string, detail: Option<EventRecord>)

  /** A `message` event: its data (None when falsy) and the window that posted it. */
  datatype MessageEvent = MessageEvent(data: Option<MessageData>, source: WindowId)

  /** What `send` posts: `{method, detail}` to `window.parent`, or
      `{method, args: [detail]}` to the port. */
  datatype Outbound = ToParent(methodName: string, detail: EventRecord) | ToPort(methodName: string, args: seq<EventRecord>)

  const RecordEvent: string := "recordEvent"

  /** `send(detail)`. */
  function Send(win: Window, detail: EventRecord): (r: Outbound)
    ensures r.methodName == RecordEvent
    ensures r.ToParent? ==> r.detail == detail
    ensures r.ToPort? ==> r.args == [detail]
  {
    if !win.isTop then ToParent(RecordEvent, detail) else ToPort(RecordEvent, [detail])
  }

  /** The index of the first child frame that is `source`, if any. */
  function FrameIndex(frames: seq<WindowId>, source: WindowId): (r: Option<nat>)
    ensures r.None? <==> source !in frames
    ensures r.Some? ==> r.value < |frames| && frames[r.value] == source && source !in frames[..r.value]
  {
    if frames == [] then None
    else if frames[0] == source then Some(0)
    else match FrameIndex(frames[1..], source)
      case None => None
      case Some(i) => Some(i + 1)
  }

  /** The record with the index of the child frame it came from in front of its
      frame path, or unchanged when the source is not a child frame. */
  function Stamp(win: Window, source: WindowId, detail: EventRecord): (r: EventRecord)
    ensures r.(targetFrame := detail.targetFrame) == detail
    ensures r.targetFrame == detail.targetFrame
         || (|r.targetFrame| > 0 && 0 <= r.targetFrame[0] < |win.frames| && win.frames[r.targetFrame[0]] == source)

  {
    match FrameIndex(win.frames, source)
    case None => detail
    case Some(i) => detail.(targetFrame := [i] + detail.targetFrame)
  }

  /** `passEvent(event)`: what it sends on, or None when it ignores the message. */
  function Relay(win: Window, event: MessageEvent): (r: Option<Outbound>)
    ensures r.Some? ==> event.data.Some? && event.data.value.detail.Some? && r.value.methodName == RecordEvent
  {
    if event.data.None? || event.data.value.methodName != RecordEvent || event.data.value.detail.None? then None
    else Some(Send(win, Stamp(win, event.source, event.data.value.detail.value)))
  }

  /** The `message` event a parent window receives for what a child posted to it
      with `window.parent.postMessage`. */
  function Deliver(posted: Outbound, source: WindowId): MessageEvent
    requires posted.ToParent?
  {
    MessageEvent(Some(MessageData(posted.methodName, Some(posted.detail))), source)
  }

  /** One relay step: the receiving window and the frame it receives from. */
  datatype Hop = Hop(win: Window, source: WindowId)

  /** Carries `posted` up through `hops` (innermost receiver first) until it has
      passed every hop; None when a hop ignores it or it reached the port early. */
  function Bubble(posted: Outbound, hops: seq<Hop>): (r: Option<Outbound>)
    ensures hops != [] && r.Some? ==> posted.ToParent? && r.value.methodName == RecordEvent
    decreases |hops|
  {
    if hops == [] then Some(posted)
    else if !posted.ToParent? then None
    else match Relay(hops[0].win, Deliver(posted, hops[0].source))
      case None => None
      case Some(next) => Bubble(next, hops[1..])
  }
}
