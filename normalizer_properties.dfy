/** What the event normaliser guarantees. */
module NormalizerProperties {
  import opened Wrappers
  import opened Browser
  import opened Locators
  import opened Normalizer

  // -------------------------------------------------------- target corrector

  /** The two stacks agree on their first `n` positions. */
  predicate AgreeUpTo(press: seq<NodeId>, release: seq<NodeId>, n: nat) {
    n <= |press| && n <= |release| && forall j | 0 <= j < n :: press[j] == release[j]
  }

  /** The stacks differ at press position `i`: the release stack has ended
      there, or holds another element. */
  predicate DifferAt(press: seq<NodeId>, release: seq<NodeId>, i: nat)
    requires i < |press|
  {
    i >= |release| || press[i] != release[i]
  }

  lemma AgreeUpToTail(press: seq<NodeId>, release: seq<NodeId>, n: nat)
    requires n >= 1 && AgreeUpTo(press, release, n)
    ensures AgreeUpTo(press[1..], release[1..], n - 1)
  {
    forall j | 0 <= j < n - 1 ensures press[1..][j] == release[1..][j] {
      assert press[j + 1] == release[j + 1];
    }
  }

  /** The corrected target is the release element at the least position where
      the two stacks differ (`undefined` when the release stack has already
      ended there), and the body when there is no such position. */
  lemma {:induction false} DragTargetFirstDivergence(press: seq<NodeId>, release: seq<NodeId>, body: NodeId)
    ensures AgreeUpTo(press, release, |press|) ==> DragTarget(press, release, body) == Some(body)
    ensures forall i | 0 <= i < |press| && DifferAt(press, release, i) && AgreeUpTo(press, release, i) ::
      DragTarget(press, release, body) == (if i < |release| then Some(release[i]) else None)
  {
    if press == [] {
    } else if release == [] || press[0] != release[0] {
      assert DifferAt(press, release, 0);
      forall i | 0 <= i < |press| && DifferAt(press, release, i) && AgreeUpTo(press, release, i)
        ensures i == 0
      {
        assert 0 >= |release| || press[0] != release[0];
      }
    } else {
      var p, r := press[1..], release[1..];
      DragTargetFirstDivergence(p, r, body);
      if AgreeUpTo(press, release, |press|) {
        AgreeUpToTail(press, release, |press|);
      }
      forall i | 0 <= i < |press| && DifferAt(press, release, i) && AgreeUpTo(press, release, i)
        ensures DragTarget(press, release, body) == (if i < |release| then Some(release[i]) else None)
      {
        assert i != 0;
        AgreeUpToTail(press, release, i);
        assert p[i - 1] == press[i];
        assert i - 1 < |r| ==> r[i - 1] == release[i];
        assert DifferAt(p, r, i - 1);
      }
    }
  }

  /** Stacks [A, B, C] at the press and [A, D, C] at the release give D; equal
      stacks give the body. */
  lemma DragTargetExamples(a: NodeId, b: NodeId, c: NodeId, d: NodeId, body: NodeId)
    requires b != d
    ensures DragTarget([a, b, c], [a, d, c], body) == Some(d)
    ensures DragTarget([a, b, c], [a, b, c], body) == Some(body)
  {
    DragTargetFirstDivergence([a, b, c], [a, b, c], body);
  }

  // ------------------------------------------------------------- drag filter

  /** The two drag tests disagree exactly on clicks released more than five
      pixels ABOVE the press (and within five horizontally). */
  lemma DragTestsDisagreeOnUpwardMoves(ev: DomEvent, press: PressSnapshot)
    ensures IsDragAsWritten(ev, press) != IsDrag(ev, press) <==>
      (Abs(ev.clientX - press.clientX) <= 5 && ev.clientY - press.clientY < -5)
  {
  }

  /** A press at (100, 100) and a click at (100, 90): the click ends a ten-pixel
      drag, yet the test as written lets it through. */
  lemma UpwardDragPassesAsWritten(ev: DomEvent, press: PressSnapshot)
    requires press.clientX == 100 && press.clientY == 100 && ev.clientX == 100 && ev.clientY == 90
    ensures !IsDragAsWritten(ev, press) && IsDrag(ev, press)
  {
  }

  /** The intended drag test does not care about direction: a release the same
      distance the other way from the press along either axis gets the same
      verdict. The test as written fails this on the vertical axis (see
      UpwardDragPassesAsWritten). */
  lemma DragTestIsDirectionBlind(ev: DomEvent, mirrored: DomEvent, press: PressSnapshot)
    requires mirrored.clientX - press.clientX == press.clientX - ev.clientX
          || mirrored.clientX == ev.clientX
    requires mirrored.clientY - press.clientY == press.clientY - ev.clientY
          || mirrored.clientY == ev.clientY
    ensures IsDrag(mirrored, press) == IsDrag(ev, press)
  {
  }

  // ------------------------------------------------------------- press table

  /** Handling an event touches at most the entry of the event's own button,
      and a mousedown (once a strategy is set) records its point and hit stack
      there. */
  lemma NextTableTouchesOneButton(strategy: Strategy, table: map<int, PressSnapshot>, page: Page, ev: DomEvent)
    ensures var next := NextTable(strategy, table, page, ev);
      && (forall b | b != ev.button :: (b in next <==> b in table) && (b in table ==> next[b] == table[b]))
      && (strategy != Unset && ev.eventType == "mousedown" ==>
            ev.button in next && next[ev.button] == PressSnapshot(ev.clientX, ev.clientY, page.hits(ev.clientX, ev.clientY)))
      && (strategy == Unset || ev.eventType != "mousedown" ==> next == table)
  {
  }

  /** A mouseup reads the snapshot the latest mousedown of the same button left:
      its target is corrected against that press's hit stack. */
  lemma ReleaseReadsLatestPress(strategy: Strategy, table: map<int, PressSnapshot>,
                                downPage: Page, down: DomEvent, upPage: Page, up: DomEvent)
    requires Valid(upPage.doc) && Consistent(upPage, up)
    requires strategy != Unset && down.eventType == "mousedown" && up.eventType == "mouseup" && down.button == up.button
    ensures var target := DragTarget(downPage.hits(down.clientX, down.clientY), upPage.hits(up.clientX, up.clientY), upPage.doc.body);
      RecordTarget(NextTable(strategy, table, downPage, down), upPage, up) ==
        (if target.Some? then Ok(target.value) else Err(NoTarget))
  {
  }

  // ----------------------------------------------------------------- outcome

  /** Without a strategy nothing is sent and the table is left alone. */
  lemma UnsetStrategyFails(xpathBuilder: Option<string>, table: map<int, PressSnapshot>, page: Page, ev: DomEvent)
    requires Valid(page.doc) && Consistent(page, ev)
    ensures Normalize(Unset, xpathBuilder, table, page, ev) == Failed(NoStrategy)
    ensures NextTable(Unset, table, page, ev) == table
  {
  }

  /** A click or mouseup with no press recorded for its button fails. */
  lemma ReleaseWithoutPressFails(strategy: Strategy, xpathBuilder: Option<string>, table: map<int, PressSnapshot>, page: Page, ev: DomEvent)
    requires Valid(page.doc) && Consistent(page, ev)
    requires strategy != Unset && (ev.eventType == "click" || ev.eventType == "mouseup") && ev.button !in table
    ensures Normalize(strategy, xpathBuilder, table, page, ev) == Failed(NoPressSnapshot)
  {
  }

  /** Only clicks are dropped, and a click with a recorded press is dropped
      exactly when it is a drag; one that is not is sent about its native target. */
  lemma ClickFilter(strategy: Strategy, xpathBuilder: Option<string>, table: map<int, PressSnapshot>, page: Page, ev: DomEvent)
    requires Valid(page.doc) && Consistent(page, ev) && strategy != Unset
    ensures Normalize(strategy, xpathBuilder, table, page, ev) == Dropped ==>
      ev.eventType == "click" && ev.button in table && IsDrag(ev, table[ev.button])
    ensures ev.eventType == "click" && ev.button in table ==>
      (Normalize(strategy, xpathBuilder, table, page, ev) == Dropped <==> IsDrag(ev, table[ev.button]))
    ensures ev.eventType == "click" && ev.button in table && !IsDrag(ev, table[ev.button]) ==>
      var out := Normalize(strategy, xpathBuilder, table, page, ev);
      out.Emitted? && out.record.target == TargetInfo(strategy, xpathBuilder, page, ev.target).path
  {
  }

  /** Every record carries the event's own fields, an empty frame path, the
      path of the resolved locator, and coordinates relative to the rectangle of
      the locator's element; a key event's record has no pointer fields. */
  lemma RecordFields(strategy: Strategy, xpathBuilder: Option<string>, table: map<int, PressSnapshot>, page: Page, ev: DomEvent)
    requires Valid(page.doc) && Consistent(page, ev)
    requires Normalize(strategy, xpathBuilder, table, page, ev).Emitted?
    ensures var r := Normalize(strategy, xpathBuilder, table, page, ev).record;
      var t := RecordTarget(table, page, ev);
      && strategy != Unset && t.Ok?
      && var info := TargetInfo(strategy, xpathBuilder, page, t.value);
      && r.target == info.path
      && r.targetFrame == []
      && r.eventType == ev.eventType
      && (IsKeyEvent(ev) ==>
            r.button.None? && r.buttons.None? && r.clientX.None? && r.clientY.None? && r.elementX.None? && r.elementY.None?)
      && (!IsKeyEvent(ev) ==>
            && r.button == Some(ev.button) && r.buttons == Some(ev.buttons)
            && r.clientX == Some(ev.clientX) && r.clientY == Some(ev.clientY)
            && r.elementX == Some(ev.clientX - page.rect(info.element).left)
            && r.elementY == Some(ev.clientY - page.rect(info.element).top))
      && r.altKey == ev.altKey && r.ctrlKey == ev.ctrlKey && r.metaKey == ev.metaKey && r.shiftKey == ev.shiftKey
      && r.keyIdentifier == ev.keyIdentifier && r.location == ev.location
      && (ev.eventType != "mouseup" ==> t.value == ev.target)
  {
  }
}
