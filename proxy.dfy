/** The event proxy object itself: the per-button press table and the two
    settings the recorder sends it (strategy and custom builder name), with the
    methods that read and update them. Each method is proved against the
    functions of modules Locators, Normalizer and FrameRelay. */
module Proxy {
  import opened Wrappers
  import opened Browser
  import opened Locators
  import opened Normalizer
  import opened FrameRelay

  /** The segment `getElementXPathInfo` prepends for a non-anchored node that
      has a parent: its tag name, ranked among its element siblings when it has
      any. The rank counts the preceding element siblings with the same tag
      name, walking `previousElementSibling` back to the first one. */
  method Segment(doc: Document, cur: NodeId) returns (seg: string)
    requires Valid(doc) && cur in doc.nodes && doc.nodes[cur].parent.Some?
    ensures seg == Render(StepOf(doc, cur))
  {
    var nodeName := doc.nodes[cur].nodeName;
    var siblings := doc.nodes[doc.nodes[cur].parent.value].children;
    var pos := IndexOf(siblings, cur);
    if pos > 0 || pos + 1 < |siblings| {
      var index := 1;
      var j := pos;
      while j > 0
        invariant 0 <= j <= pos
        invariant index == 1 + CountNamed(doc, siblings[j..pos], nodeName)
      {
        j := j - 1;
        assert siblings[j..pos][1..] == siblings[j + 1..pos];
        if doc.nodes[siblings[j]].nodeName == nodeName {
          index := index + 1;
        }
      }
      assert siblings[j..pos] == siblings[..pos];
      seg := nodeName + "[" + Decimal(index) + "]";
    } else {
      seg := nodeName;
    }
  }

  lemma PrependStep(step: Step, steps: seq<Step>)
    ensures RenderAll([step] + steps) == [Render(step)] + RenderAll(steps)
  {
    assert forall k | 1 <= k < |steps| + 1 :: ([step] + steps)[k] == steps[k - 1];
  }

  /** The custom-builder branch of `getElementXPathInfo`: offer the element and
      then each ancestor, up to but excluding the document node, to the builder
      and keep the first non-empty answer with the node it was given; `//BODY`
      and the body when every answer is empty. */
  method CustomXPathInfo(doc: Document, func: Builder, element: NodeId) returns (r: Locator)
    requires Valid(doc) && element in doc.nodes
    ensures r == CustomLocate(doc, func, BuilderChain(doc, element))
  {
    var ancestor: Option<NodeId> := Some(element);
    while ancestor.Some? && ancestor.value != doc.root
      invariant ancestor.Some? ==> ancestor.value in doc.nodes
      invariant CustomLocate(doc, func, BuilderChain(doc, element))
             == CustomLocate(doc, func, if ancestor.Some? then BuilderChain(doc, ancestor.value) else [])
      decreases if ancestor.Some? then doc.nodes[ancestor.value].depth + 1 else 0
    {
      var result := func(ancestor.value);
      if result != "" {
        return Locator(result, ancestor.value);
      }
      assert Linked(doc, ancestor.value);
      ancestor := doc.nodes[ancestor.value].parent;
    }
    return Locator("//BODY", doc.body);
  }

  /** The structural branch of `getElementXPathInfo`: ascend from the element,
      putting each node's segment in front of the path, until a node with an
      id (when ids count) or the document node has been added; join with `/`. */
  method StructuralXPathInfo(doc: Document, element: NodeId, ignoreId: bool) returns (r: Locator)
    requires Valid(doc) && element in doc.nodes
    ensures r == StructuralInfo(doc, element, ignoreId)
  {
    var path: seq<string> := [];
    ghost var steps: seq<Step> := [];
    var next: Option<NodeId> := Some(element);
    while next.Some?
      invariant next.Some? ==> next.value in doc.nodes && Walk(doc, element, ignoreId) == Walk(doc, next.value, ignoreId) + steps
      invariant next.None? ==> Walk(doc, element, ignoreId) == steps
      invariant path == RenderAll(steps)
      decreases if next.Some? then doc.nodes[next.value].depth + 1 else 0
    {
      var cur := next.value;
      var node := doc.nodes[cur];
      assert Linked(doc, cur);
      ghost var step: Step;
      var segment: string;
      if node.id != "" && !ignoreId {
        segment := "id(\"" + node.id + "\")";
        step := Anchor(node.id);
        next := None;
      } else {
        if node.parent.Some? {
          segment := Segment(doc, cur);
          step := StepOf(doc, cur);
        } else {
          segment := "";
          step := Top;
        }
        next := node.parent;
      }
      assert segment == Render(step);
      PrependStep(step, steps);
      path := [segment] + path;
      steps := [step] + steps;
    }
    r := Locator(Join(path, "/"), element);
  }

  /** The mouseup corrector: walk the press-time stack and return the
      release-time element at the first position where they differ (None for
      `undefined` when the release stack is shorter), or the body. */
  method CorrectedTarget(press: seq<NodeId>, release: seq<NodeId>, body: NodeId) returns (r: Option<NodeId>)
    ensures r == DragTarget(press, release, body)
  {
    var i := 0;
    while i < |press|
      invariant 0 <= i <= |press| && i <= |release|
      invariant DragTarget(press, release, body) == DragTarget(press[i..], release[i..], body)
    {
      if i >= |release| {
        return None;
      }
      if press[i] != release[i] {
        return Some(release[i]);
      }
      assert press[i..][1..] == press[i + 1..] && release[i..][1..] == release[i + 1..];
      i := i + 1;
    }
    return Some(body);
  }

  /** A message from the recorder's port: the member to call and its arguments
      (None when the message has no `args`). Every argument the modelled
      members take is a string or `undefined`. */
  datatype PortMessage = PortMessage(methodName: string, args: Option<seq<Option<string>>>)

  /** What dispatching a port message comes to: the call returned, it threw
      with the given message, or it went to a member this model does not run. */
  datatype DispatchResult = Done | Thrown(message: string) | Delegated(name: string)

  /** The members every proxy has: the prototype's methods, the object's own
      fields, the port set up by `connect`, and the ones it inherits from
      `Object.prototype`. */
  const AlwaysPresent: set<string> := {
    "constructor", "connect", "getElementTextPathInfo", "getElementXPathInfo", "passEvent", "send",
    "sendEvent", "setStrategy", "setXPathBuilder",
    "window", "document", "chrome", "lastMouseDown", "port",
    "toString", "toLocaleString", "valueOf", "hasOwnProperty", "isPrototypeOf", "propertyIsEnumerable",
    "__proto__", "__defineGetter__", "__defineSetter__", "__lookupGetter__", "__lookupSetter__"}

  /** `self[name]` is truthy. */
  predicate IsMember(strategy: Strategy, xpathBuilder: Option<string>, name: string) {
    || name in AlwaysPresent
    || (name == "getTargetInfo" && strategy != Unset)
    || (name == "xpathBuilder" && xpathBuilder.Some? && xpathBuilder.value != "")
  }

  /** `'Method "' + name + '" does not exist on RecorderProxy'`. */
  function MissingMethod(name: string): string {
    "Method \"" + name + "\" does not exist on RecorderProxy"
  }

  /** `'Invalid strategy "' + value + '"'`, with `undefined` spelt out. */
  function InvalidStrategy(value: Option<string>): string {
    "Invalid strategy \"" + (if value.Some? then value.value else "undefined") + "\""
  }

  /** The first argument of a call, `undefined` when there is none. */
  function FirstArgument(args: Option<seq<Option<string>>>): Option<string> {
    if args.None? || args.value == [] then None else args.value[0]
  }

  class EventProxy {
    /** Which resolver `getTargetInfo` holds. */
    var strategy: Strategy
    /** The name of the custom builder on the page's global object. */
    var xpathBuilder: Option<string>
    /** The latest press per mouse button. */
    var lastMouseDown: map<int, PressSnapshot>

    constructor ()
      ensures strategy == Unset && xpathBuilder == None && lastMouseDown == map[]
    {
      strategy := Unset;
      xpathBuilder := None;
      lastMouseDown := map[];
    }

    /** `getElementXPathInfo(element, ignoreId)`: the custom builder's answer
        when a builder is set and present on the page, else the structural path. */
    method GetElementXPathInfo(page: Page, element: NodeId, ignoreId: bool) returns (r: Locator)
      requires Valid(page.doc) && element in page.doc.nodes
      ensures r == XPathInfo(page, xpathBuilder, element, ignoreId)
    {
      if xpathBuilder.Some? && xpathBuilder.value != "" && xpathBuilder.value in page.globals {
        r := CustomXPathInfo(page.doc, page.globals[xpathBuilder.value], element);
      } else {
        r := StructuralXPathInfo(page.doc, element, ignoreId);
      }
    }

    /** `getElementTextPathInfo(element)`, with the prefix of the first finding
        corrected: the tag name and the text predicate when that selects a
        single element, else the path of `getElementXPathInfo(element, true)`
        (the structural path with ids ignored, or the custom builder's answer
        when one is installed) followed by the text predicate. */
    method GetElementTextPathInfo(page: Page, element: NodeId) returns (r: Locator)
      requires Valid(page.doc) && element in page.doc.nodes
      ensures r == TextPathInfo(page, xpathBuilder, element)
    {
      var tagPrefix := "//" + page.doc.nodes[element].nodeName;
      var textValue := page.text(element);
      var path := PredicateOpen + Escape(textValue) + "\"]";
      var matchesMultipleElements := page.matchCount(tagPrefix + path) >= 2;
      if matchesMultipleElements {
        var info := GetElementXPathInfo(page, element, true);
        path := info.path + path;
      } else {
        path := tagPrefix + path;
      }
      r := Locator(path, element);
    }

    /** `this.getTargetInfo(target)`: whichever resolver the strategy chose. */
    method GetTargetInfo(page: Page, target: NodeId) returns (r: Locator)
      requires strategy != Unset && Valid(page.doc) && target in page.doc.nodes
      ensures r == TargetInfo(strategy, xpathBuilder, page, target)
      ensures r.element == target || HasBuilder(page, xpathBuilder)
    {
      if strategy == XPath {
        r := GetElementXPathInfo(page, target, false);
      } else {
        r := GetElementTextPathInfo(page, target);
      }
    }

    /** `sendEvent(event)`: normalises `ev` into the record it sends (and the
        message that carries it), recording a press for a mousedown. */
    method SendEvent(page: Page, win: Window, ev: DomEvent) returns (out: Outcome, msg: Option<Outbound>)
      requires Valid(page.doc) && Consistent(page, ev)
      modifies this`lastMouseDown
      ensures out == Normalize(strategy, xpathBuilder, old(lastMouseDown), page, ev)
      ensures lastMouseDown == NextTable(strategy, old(lastMouseDown), page, ev)
      ensures msg == if out.Emitted? then Some(Send(win, out.record)) else None
    {
      if strategy == Unset {
        return Failed(NoStrategy), None;
      }
      if ev.eventType == "click" {
        if ev.button !in lastMouseDown {
          return Failed(NoPressSnapshot), None;
        }
        if IsDrag(ev, lastMouseDown[ev.button]) {
          return Dropped, None;
        }
      }
      if ev.eventType == "mousedown" {
        lastMouseDown := lastMouseDown[ev.button := PressSnapshot(ev.clientX, ev.clientY, page.hits(ev.clientX, ev.clientY))];
      }
      var target := ResolveTarget(page, ev);
      if target.Err? {
        return Failed(target.error), None;
      }
      out, msg := Emit(page, win, ev, target.value);
    }

    /** The element `sendEvent` resolves a locator for: for a mouseup the
        corrected target, found with the press snapshot of its button, for any
        other event its native target. */
    method ResolveTarget(page: Page, ev: DomEvent) returns (r: Result<NodeId, Failure>)
      requires Valid(page.doc) && Consistent(page, ev)
      ensures r == RecordTarget(lastMouseDown, page, ev)
      ensures r.Ok? ==> r.value in page.doc.nodes
    {
      if ev.eventType == "mouseup" {
        if ev.button !in lastMouseDown {
          return Err(NoPressSnapshot);
        }
        var corrected := CorrectedTarget(lastMouseDown[ev.button].elements, page.hits(ev.clientX, ev.clientY), page.doc.body);
        if corrected.None? {
          return Err(NoTarget);
        }
        r := Ok(corrected.value);
      } else {
        r := Ok(ev.target);
      }
    }

    /** The record `sendEvent` builds for `target` and the message `send`
        posts with it. */
    method Emit(page: Page, win: Window, ev: DomEvent, target: NodeId) returns (out: Outcome, msg: Option<Outbound>)
      requires strategy != Unset && Valid(page.doc) && target in page.doc.nodes
      ensures var info := TargetInfo(strategy, xpathBuilder, page, target);
        out == Emitted(BuildRecord(ev, info, page.rect(info.element)))
      ensures out.Emitted? && msg == Some(Send(win, out.record))
    {
      var targetInfo := GetTargetInfo(page, target);
      var rect := page.rect(targetInfo.element);
      // A key event has no pointer fields: they are `undefined`, and the
      // element-relative coordinates computed from them NaN.
      var key := ev.eventType == "keydown" || ev.eventType == "keyup";
      var record := EventRecord(
        ev.altKey,
        if key then None else Some(ev.button),
        if key then None else Some(ev.buttons),
        ev.ctrlKey,
        if key then None else Some(ev.clientX),
        if key then None else Some(ev.clientY),
        if key then None else Some(ev.clientX - rect.left),
        if key then None else Some(ev.clientY - rect.top),
        ev.keyIdentifier, ev.location, ev.metaKey, ev.shiftKey,
        targetInfo.path, [], ev.eventType);
      out := Emitted(record);
      msg := Some(Send(win, record));
    }

    /** `passEvent(event)`: a record relayed by a child frame gets that frame's
        index in front of its frame path and is sent on. */
    method PassEvent(win: Window, event: MessageEvent) returns (msg: Option<Outbound>)
      ensures msg == Relay(win, event)
    {
      if event.data.None? || event.data.value.methodName != RecordEvent || event.data.value.detail.None? {
        return None;
      }
      var detail := event.data.value.detail.value;
      var i := 0;
      while i < |win.frames| && event.source != win.frames[i]
        invariant 0 <= i <= |win.frames|
        invariant event.source !in win.frames[..i]
      {
        assert win.frames[..i + 1] == win.frames[..i] + [win.frames[i]];
        i := i + 1;
      }
      if i < |win.frames| {
        assert FrameIndex(win.frames, event.source) == Some(i) by {
          var k := FrameIndex(win.frames, event.source);
          assert forall j | 0 <= j < k.value :: win.frames[..k.value][j] == win.frames[j];
          assert forall j | 0 <= j < i :: win.frames[..i][j] == win.frames[j];
        }
        detail := detail.(targetFrame := [i] + detail.targetFrame);
      } else {
        assert win.frames[..i] == win.frames;
      }
      msg := Some(Send(win, detail));
    }

    /** `setStrategy(value)`: "xpath" and "text" choose the resolver; any
        other value throws and leaves the strategy as it was. */
    method SetStrategy(value: Option<string>) returns (r: Result<(), string>)
      modifies this`strategy
      ensures value == Some("xpath") ==> r.Ok? && strategy == XPath
      ensures value == Some("text") ==> r.Ok? && strategy == Text
      ensures value != Some("xpath") && value != Some("text") ==>
        r == Err(InvalidStrategy(value)) && strategy == old(strategy)
    {
      if value == Some("xpath") {
        strategy := XPath;
        r := Ok(());
      } else if value == Some("text") {
        strategy := Text;
        r := Ok(());
      } else {
        r := Err(InvalidStrategy(value));
      }
    }

    /** `setXPathBuilder(value)`. */
    method SetXPathBuilder(value: Option<string>)
      modifies this`xpathBuilder
      ensures xpathBuilder == value
    {
      xpathBuilder := value;
    }

    /** The port's `onMessage` listener: a name that is no truthy member of
        the proxy throws; `setStrategy` and `setXPathBuilder` run with the
        message's first argument; `constructor` re-runs `EventProxy` on the
        proxy, which empties the press table and leaves the strategy and the
        builder name as they are, since `EventProxy` does not assign them.
        Other members are not run. */
    method OnMessage(message: PortMessage) returns (r: DispatchResult)
      modifies this`strategy, this`xpathBuilder, this`lastMouseDown
      ensures !IsMember(old(strategy), old(xpathBuilder), message.methodName) <==> r == Thrown(MissingMethod(message.methodName))
      ensures message.methodName == "setStrategy" ==>
        && xpathBuilder == old(xpathBuilder)
        && match FirstArgument(message.args)
           case Some("xpath") => r == Done && strategy == XPath
           case Some("text") => r == Done && strategy == Text
           case other => r == Thrown(InvalidStrategy(other)) && strategy == old(strategy)
      ensures message.methodName == "setXPathBuilder" ==>
        r == Done && xpathBuilder == FirstArgument(message.args) && strategy == old(strategy)
      ensures message.methodName != "setStrategy" && message.methodName != "setXPathBuilder" ==>
        strategy == old(strategy) && xpathBuilder == old(xpathBuilder)
      ensures message.methodName == "constructor" ==> r == Done && lastMouseDown == map[]
      ensures message.methodName != "constructor" ==> lastMouseDown == old(lastMouseDown)
      ensures (&& IsMember(old(strategy), old(xpathBuilder), message.methodName)
               && message.methodName !in {"setStrategy", "setXPathBuilder", "constructor"}) ==>
        r == Delegated(message.methodName)
    {
      var name := message.methodName;
      if !IsMember(strategy, xpathBuilder, name) {
        return Thrown(MissingMethod(name));
      }
      var value := FirstArgument(message.args);
      if name == "setStrategy" {
        var result := SetStrategy(value);
        r := if result.Ok? then Done else Thrown(result.error);
        assert MissingMethod(name)[0] == 'M' && InvalidStrategy(value)[0] == 'I';
      } else if name == "setXPathBuilder" {
        SetXPathBuilder(value);
        r := Done;
      } else if name == "constructor" {
        lastMouseDown := map[];
        r := Done;
      } else {
        r := Delegated(name);
      }
    }
  }
}
