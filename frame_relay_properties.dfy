/** What the frame relay guarantees. */
module FrameRelayProperties {
  import opened Wrappers
  import opened Normalizer
  import opened FrameRelay

  /** `passEvent` forwards exactly the messages that carry data, the method
      `recordEvent` and a detail. */
  lemma RelayAcceptsOnlyRecords(win: Window, event: MessageEvent)
    ensures Relay(win, event).Some? <==>
      event.data.Some? && event.data.value.methodName == "recordEvent" && event.data.value.detail.Some?
  {
  }

  /** A forwarded record differs from the received one only in its frame path,
      which gains the first index of the source among the child frames in front,
      or stays as it was when the source is no child frame. */
  lemma StampPrependsFrameIndex(win: Window, source: WindowId, detail: EventRecord)
    ensures var s := Stamp(win, source, detail);
      && s.(targetFrame := detail.targetFrame) == detail
      && (source !in win.frames ==> s.targetFrame == detail.targetFrame)
      && (forall i | 0 <= i < |win.frames| && win.frames[i] == source && source !in win.frames[..i] ::
            s.targetFrame == [i] + detail.targetFrame)
  {
    var r := FrameIndex(win.frames, source);
    forall i | 0 <= i < |win.frames| && win.frames[i] == source && source !in win.frames[..i]
      ensures r == Some(i)
    {
      assert forall j | 0 <= j < i :: win.frames[..i][j] == win.frames[j];
      assert forall j | 0 <= j < r.value :: win.frames[..r.value][j] == win.frames[j];
    }
  }

  /** What a non-top window posts to its parent is accepted there, stamped and
      routed onward by the parent's own position. */
  lemma SendThenRelay(child: Window, parent: Window, source: WindowId, detail: EventRecord)
    requires !child.isTop
    ensures Send(child, detail).ToParent?
    ensures Relay(parent, Deliver(Send(child, detail), source)) == Some(Send(parent, Stamp(parent, source, detail)))
  {
  }

  /** The top window hands the record to the port as the single argument of
      `recordEvent`; any other window hands it to its parent. */
  lemma SendRoutesByPosition(win: Window, detail: EventRecord)
    ensures win.isTop <==> Send(win, detail).ToPort?
    ensures Send(win, detail).ToPort? ==> Send(win, detail).args == [detail]
    ensures Send(win, detail).ToParent? ==> Send(win, detail).detail == detail
    ensures Send(win, detail).methodName == "recordEvent"
  {
  }

  /** The frame relay rebuilds the nesting path: a record posted from a nested
      frame and relayed through the windows above it (innermost first, the last
      being the top window, hop j receiving from the frame at index
      `path[|path| - 1 - j]`) reaches the port with `path` (outermost first) in
      front of its frame path. */
  lemma {:induction false} BubbleReconstructsPath(detail: EventRecord, hops: seq<Hop>, path: seq<nat>)
    requires |hops| == |path| >= 1
    requires forall j | 0 <= j < |hops| - 1 :: !hops[j].win.isTop
    requires hops[|hops| - 1].win.isTop
    requires forall j | 0 <= j < |hops| :: FrameIndex(hops[j].win.frames, hops[j].source) == Some(path[|path| - 1 - j])
    ensures Bubble(ToParent(RecordEvent, detail), hops) ==
      Some(ToPort(RecordEvent, [detail.(targetFrame := path + detail.targetFrame)]))
    decreases |hops|
  {
    var last := |path| - 1;
    var stamped := detail.(targetFrame := [path[last]] + detail.targetFrame);
    assert Stamp(hops[0].win, hops[0].source, detail) == stamped;
    var posted := ToParent(RecordEvent, detail);
    assert Relay(hops[0].win, Deliver(posted, hops[0].source)) == Some(Send(hops[0].win, stamped));
    assert Bubble(posted, hops) == Bubble(Send(hops[0].win, stamped), hops[1..]);
    if |hops| == 1 {
      assert path == [path[last]];
    } else {
      var rest, outer := hops[1..], path[..last];
      forall j | 0 <= j < |rest| ensures FrameIndex(rest[j].win.frames, rest[j].source) == Some(outer[|outer| - 1 - j]) {
        assert rest[j] == hops[j + 1];
      }
      BubbleReconstructsPath(stamped, rest, outer);
      assert outer + ([path[last]] + detail.targetFrame) == path + detail.targetFrame;
    }
  }

  /** A record from a frame two levels down, at index 0 of a frame that is at
      index 2 of the top window, reaches the port with frame path [2, 0]. */
  lemma TwoLevelExample(detail: EventRecord, top: Window, middle: Window, middleId: WindowId, originId: WindowId)
    requires detail.targetFrame == []
    requires top.isTop && !middle.isTop
    requires |top.frames| == 3 && top.frames[2] == middleId && top.frames[0] != middleId && top.frames[1] != middleId
    requires middle.frames == [originId]
    ensures Bubble(ToParent(RecordEvent, detail), [Hop(middle, originId), Hop(top, middleId)]) ==
      Some(ToPort(RecordEvent, [detail.(targetFrame := [2, 0])]))
  {
    assert top.frames[..2] == [top.frames[0], top.frames[1]];
    assert FrameIndex(top.frames, middleId) == Some(2);
    assert FrameIndex(middle.frames, originId) == Some(0);
    BubbleReconstructsPath(detail, [Hop(middle, originId), Hop(top, middleId)], [2, 0]);
    assert [2, 0] + detail.targetFrame == [2, 0];
  }
}
