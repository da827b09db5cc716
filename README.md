# EventProxy: locators, drag correction and frame relay, in Dafny

The recorder's event proxy is a content script that runs in every frame of a
page under test. It handles each captured input event in four steps:

1. It resolves the event's element to an XPath **locator**. That is either a
   structural path of tag names and sibling ranks, anchored at the nearest id,
   or a text path (tag name plus a normalised-text predicate). A page may
   install a custom builder function that replaces the structural path.
2. For a mouseup, it corrects the target by comparing the hit-test stack of
   the press with that of the release.
3. It drops clicks that end a drag.
4. It sends a normalised record up the window hierarchy. Each parent window
   puts the index of the child frame it came from in front of the record's
   frame path. The top window hands the record to the recorder's port.

The recorder configures the proxy over the port: it chooses the strategy and
the custom builder name.

The project has two layers:
- **Reference functions.** `Locators`, `Normalizer` and
  `FrameRelay` model these behaviours as functions on values. The lemmas in
  `LocatorProperties`, `NormalizerProperties` and `FrameRelayProperties`
  state what those functions guarantee.
- **Class (the implementation).** `Proxy.EventProxy` is the proxy object. Its
  fields are the strategy, the builder name and the per-button press table.
  Its methods are the source's loops, and each is proved against those
  functions.

The browser is modelled as values (module `Browser`):
- The document is a tree of element nodes.
- Answers to text, XPath-count, hit-test and bounding-rectangle queries are
  function fields of a `Page`.
- Functions on the global object are a map from names to builders.

## Model

| member | source | states |
|---|---|---|
| Proxy.EventProxy.constructor | lib/EventProxy.js:6-11 | a new proxy has no strategy, no builder name and an empty press table |
| Proxy.EventProxy.GetElementXPathInfo | lib/EventProxy.js:100-149 | the locator is the custom builder's when a builder name is set and names a function on the page, else the structural path of the element |
| Proxy.CustomXPathInfo | lib/EventProxy.js:101-110 | the ancestor loop returns the first non-empty answer among the element and its ancestors below the document node, with the node it answered for, else `//BODY` and the body |
| Proxy.StructuralXPathInfo | lib/EventProxy.js:112-148 | the do-while ascent yields exactly the `/`-join of the rendered walk from the document node or nearest id down to the element, and the element itself |
| Proxy.Segment | lib/EventProxy.js:122-141 | the sibling loop gives the tag name ranked by 1 + the number of preceding same-named element siblings when the node has any element sibling, the bare tag name otherwise |
| Proxy.EventProxy.GetElementTextPathInfo | lib/EventProxy.js:64-97 | the text path with line 91 corrected (first finding): tag and text predicate when that selects fewer than two nodes, else `getElementXPathInfo(element, true).path` (the id-free structural path, or the custom builder's answer when one is installed) followed by the predicate |
| Proxy.EventProxy.GetTargetInfo | lib/EventProxy.js:235 | the locator comes from the resolver the strategy selects, and it denotes the target itself unless a custom builder is active |
| Proxy.CorrectedTarget | lib/EventProxy.js:214-229 | the divergence loop returns the drag-corrected target: the release element at the first differing position, undefined when the release stack ended there, the body when none differs |
| Proxy.EventProxy.SendEvent | lib/EventProxy.js:184-256 | the outcome and the new press table are those of the normaliser on the old table; a message is sent exactly when a record is emitted, routed by the window's position |
| Proxy.EventProxy.ResolveTarget | lib/EventProxy.js:214-233 | the target is the mouseup-corrected element (failing without a press snapshot or with an undefined corrected target) or the native target, and always a node of the document |
| Proxy.EventProxy.Emit | lib/EventProxy.js:235-255 | the emitted record is the normaliser's record for the target's locator and rectangle, and the message is its routed send |
| Proxy.EventProxy.PassEvent | lib/EventProxy.js:151-166 | the frame loop forwards a relayed record stamped with the first index of the source among the child frames, and ignores messages that are not records |
| Proxy.EventProxy.SetStrategy | lib/EventProxy.js:260-271 | "xpath" and "text" select the structural or text resolver; any other value fails with `Invalid strategy "<value>"` and leaves the strategy unchanged |
| Proxy.EventProxy.SetXPathBuilder | lib/EventProxy.js:279-281 | the builder name becomes the given value |
| Proxy.EventProxy.OnMessage | lib/EventProxy.js:55-61 | a port message throws `Method "<name>" does not exist on RecorderProxy` exactly when the name is no truthy member; setStrategy and setXPathBuilder run with the first argument; constructor empties the press table; no other message changes the settings |
| Locators.Walk | lib/EventProxy.js:115-146 | the segments of the structural path, root first: an id anchor or the document node's empty segment comes first (always the empty segment when ids are ignored), and every later segment is a tag segment |
| Locators.StructuralInfo | lib/EventProxy.js:112-148 | the structural locator denotes the element itself |
| Locators.CustomLocate | lib/EventProxy.js:104-109 | the custom branch's path is never empty; the result is `//BODY` with the body, or a chain node with the builder's answer for it |
| Locators.XPathInfo | lib/EventProxy.js:100-149 | without a usable builder the locator denotes the element; with one it denotes the body or the element or an ancestor below the document node, with a non-empty path |
| Locators.Escape | lib/EventProxy.js:75 | escaped text contains no double quote |
| Locators.TextPathInfo | lib/EventProxy.js:64-97 | a text locator always denotes the element it was built for |
| Locators.TextPathInfoAsWritten | lib/EventProxy.js:91 | the as-written text locator also denotes its element (its path is the subject of the first finding) |
| LocatorProperties.WalkAnchoredAtNearestId | lib/EventProxy.js:115-121 | with ids honoured, the walk is the anchor of the nearest ancestor-or-self with an id, followed by the unanchored segments of the nodes below it, outermost first |
| LocatorProperties.WalkWithoutAnchor | lib/EventProxy.js:115-146 | without an id on the way, the walk has one segment per node from the document node down to the element |
| LocatorProperties.PathAnchoredAtNearestId | lib/EventProxy.js:115-148 | the path of an id-anchored element starts with `id("<nearest id>")`, and the locator is the element itself |
| LocatorProperties.PathWithoutAnchor | lib/EventProxy.js:142-148 | an unanchored path of a non-document node starts with `/` (the document node's empty segment) and has one segment per ancestor-or-self |
| LocatorProperties.SameStepSameNode | lib/EventProxy.js:123-140 | two element siblings never get the same segment: name and rank identify the node |
| LocatorProperties.CountNamedGrows | lib/EventProxy.js:130-134 | a later sibling with the same tag name has a strictly larger rank count |
| LocatorProperties.WalkInjective | lib/EventProxy.js:112-148 | two nodes with the same id-free walk are the same node |
| LocatorProperties.DecimalRoundTrip | lib/EventProxy.js:136 | the rendered rank reads back as the same number |
| LocatorProperties.SplitJoin | lib/EventProxy.js:148 | joining slash-free segments with `/` and splitting at `/` gives back the segments |
| LocatorProperties.ParseRender | lib/EventProxy.js:136-139 | a rendered tag segment (ranked or not) or document segment parses back into itself |
| LocatorProperties.PathRoundTrip | lib/EventProxy.js:112-148 | the id-free structural path of a node parses back into exactly its walk |
| LocatorProperties.StructuralPathUnique | lib/EventProxy.js:112-148 | distinct nodes get distinct id-free structural paths |
| LocatorProperties.CustomLocateFirstHit | lib/EventProxy.js:104-109 | the builder loop's result is the first node of the chain with a non-empty answer, or `//BODY` and the body |
| LocatorProperties.CustomBuilderFirstHit | lib/EventProxy.js:101-110 | with a custom builder, ignoreId makes no difference, and the locator is the nearest ancestor-or-self the builder answers for, or `//BODY` |
| LocatorProperties.EscapeQuoteFree | lib/EventProxy.js:75 | text without double quotes is left unchanged by escaping |
| LocatorProperties.EscapeAppend | lib/EventProxy.js:75 | escaping works character by character: it distributes over concatenation |
| LocatorProperties.TextPredicateDelimited | lib/EventProxy.js:75 | the only double quotes in a text predicate are the two that delimit the text |
| LocatorProperties.TextPathForms | lib/EventProxy.js:85-95 | with line 91 corrected (first finding), the text path is the tag-plus-predicate candidate when that selects fewer than two nodes, else `getElementXPathInfo(element, true).path` (the id-free structural path, or the custom builder's answer when one is installed) plus the predicate |
| LocatorProperties.TextPathUsesBuilder | lib/EventProxy.js:88-92 | with line 91 corrected (first finding) and a custom builder installed, an ambiguous text path is prefixed by the builder's answer for the nearest ancestor-or-self it answers for (or `//BODY`), and by its answer for the element itself when there is one |
| LocatorProperties.TextPathDisambiguates | lib/EventProxy.js:88-92 | two elements with the same text whose candidates are ambiguous get the same text path only if they are the same element |
| LocatorProperties.TextPathAsWrittenCollides | lib/EventProxy.js:91 | as written, every element with the same ambiguous text gets the same path, `[object Object]` followed by the predicate |
| Normalizer.IsDragAsWritten | lib/EventProxy.js:196-199 | as written, no release at or above the press that is within five pixels horizontally counts as a drag |
| Normalizer.IsDrag | lib/EventProxy.js:196-199 | a click is not a drag exactly when it lies within five pixels of the press on both axes |
| Normalizer.TargetInfo | lib/EventProxy.js:235 | under the text strategy, or without a usable builder, the locator denotes the target; otherwise the target, an ancestor of it or the body |
| Normalizer.BuildRecord | lib/EventProxy.js:239-255 | a record has client coordinates exactly when the event is a mouse event, and element-relative coordinates exactly when it has client ones; element-relative coordinates plus the rectangle's origin give the client coordinates |
| Normalizer.Normalize | lib/EventProxy.js:184-256 | only clicks are dropped; an emitted record needs a strategy, has an empty frame path and keeps the event's type |
| Normalizer.NextTable | lib/EventProxy.js:205-210 | the press table never forgets a button, and gains at most the event's own |
| Normalizer.DragTarget | lib/EventProxy.js:214-229 | a corrected target is the body or an element of the release stack |
| Normalizer.RecordTarget | lib/EventProxy.js:214-233 | a resolved target is a node of the document |
| NormalizerProperties.DragTargetFirstDivergence | lib/EventProxy.js:218-228 | the corrected target is the release element at the least differing position (undefined if the release stack ended there), the body when the stacks agree on every press position |
| NormalizerProperties.DragTargetExamples | lib/EventProxy.js:218-228 | press stack [A, B, C] and release stack [A, D, C] give D; identical stacks give the body |
| NormalizerProperties.DragTestsDisagreeOnUpwardMoves | lib/EventProxy.js:196-199 | the written and the intended drag tests disagree exactly on releases within five pixels horizontally and more than five pixels above the press |
| NormalizerProperties.UpwardDragPassesAsWritten | lib/EventProxy.js:198 | a click ten pixels above its press is a drag, yet the written test lets it through |
| NormalizerProperties.DragTestIsDirectionBlind | lib/EventProxy.js:196-199 | the intended drag test gives the same verdict for releases mirrored about the press on either axis |
| NormalizerProperties.NextTableTouchesOneButton | lib/EventProxy.js:205-210 | an event changes at most its own button's press entry, and a mousedown (strategy set) records its point and hit stack there |
| NormalizerProperties.ReleaseReadsLatestPress | lib/EventProxy.js:205-219 | a mouseup is corrected against the hit stack of the latest mousedown of its button |
| NormalizerProperties.UnsetStrategyFails | lib/EventProxy.js:185-191 | without a strategy nothing is emitted and the press table is unchanged |
| NormalizerProperties.ReleaseWithoutPressFails | lib/EventProxy.js:196-218 | a click or mouseup with no recorded press for its button fails |
| NormalizerProperties.ClickFilter | lib/EventProxy.js:201-203 | only clicks are dropped; a click with a recorded press is dropped exactly when it is a drag by the corrected two-sided test of line 198 (second finding), and otherwise it is emitted about its native target |
| NormalizerProperties.RecordFields | lib/EventProxy.js:235-255 | an emitted record copies the event's fields, has an empty frame path and the locator's path, and measures elementX/elementY from the locator element's rectangle; a key event's record has no pointer fields |
| FrameRelay.FrameIndex | lib/EventProxy.js:158-163 | the frame index is absent exactly when the source is no child frame, otherwise it is the first position of the source |
| FrameRelay.Send | lib/EventProxy.js:168-182 | the message is always `recordEvent` and carries the record unchanged, to the parent as `detail` or to the port as the sole argument |
| FrameRelay.Stamp | lib/EventProxy.js:156-163 | stamping changes only the frame path; when it changes, its new first entry indexes a child frame that is the source |
| FrameRelay.Relay | lib/EventProxy.js:151-166 | a forwarded message came from data with a detail, and is a `recordEvent` message |
| FrameRelay.Bubble | lib/EventProxy.js:151-182 | a record that passes at least one hop was posted to a parent and arrives as a `recordEvent` message |
| FrameRelayProperties.RelayAcceptsOnlyRecords | lib/EventProxy.js:152-154 | a message is forwarded exactly when it has data, the method `recordEvent` and a detail |
| FrameRelayProperties.StampPrependsFrameIndex | lib/EventProxy.js:156-163 | forwarding changes only the frame path, which gains the source's first frame index in front, or nothing when the source is no child frame |
| FrameRelayProperties.SendRoutesByPosition | lib/EventProxy.js:168-182 | the top window posts `recordEvent` to the port with the record as sole argument; any other window posts it to its parent |
| FrameRelayProperties.SendThenRelay | lib/EventProxy.js:151-182 | what a child frame posts is accepted by its parent, stamped and routed on |
| FrameRelayProperties.BubbleReconstructsPath | lib/EventProxy.js:151-182 | a record relayed up through nested frames reaches the port with the full frame path, outermost index first |
| FrameRelayProperties.TwoLevelExample | lib/EventProxy.js:158-165 | a record from frame 0 inside frame 2 of the top window arrives with frame path [2, 0] |

## Left out

- `connect` (lib/EventProxy.js:28-54) is not modelled. It adds the listeners, opens the port and removes the listeners on disconnect, which is event plumbing. Its dispatch listener is modelled as `OnMessage`, with the port assumed open.
- `postMessage` delivery between windows is not modelled. `send` is the pure routing function `Send`, which returns the posted message as a value. `Deliver` models the receiving window's `message` event.
- The XPath engine is a set of oracles. `normalize-space(string())` is `Page.text`, and "the candidate matches more than one node" is `Page.matchCount(candidate) >= 2`. `elementsFromPoint` is `Page.hits` and `getBoundingClientRect` is `Page.rect`. Coordinates are integers, so floating point is out.
- The `setTimeout` retry when no strategy is set (lines 186-190) is not modelled, and neither is `console.log`. Line 189 evidently means to retry the event, but the `sendEvent` it schedules is not in scope there, so the event ends without a record (`Failed(NoStrategy)`).
- In the mouseup corrector the scan stops at the length of the press stack, so a longer release stack is only compared up to that length. When the release stack ends before the first difference, `targetElements[i]` reads `undefined`. Without a custom builder `getTargetInfo` then throws; with one installed under the xpath strategy, `undefined` is handed to the builder (line 104), and a truthy answer returns `{element: undefined}`, so `getBoundingClientRect` throws at line 237 instead. Either way no record is sent; the model gives `Failed(NoTarget)`.
- Exceptions the source throws are modelled as result values:
  - `NoPressSnapshot`, a TypeError from a missing press entry;
  - `NoTarget`, an `undefined` target;
  - `Thrown(...)`, errors on the port.
- Key events (`keydown`, `keyup`) have no `button`, `buttons`, `clientX` or `clientY`. Their records hold `undefined` for those fields and NaN for `elementX`/`elementY` (`undefined - rect.left`); `Normalizer.BuildRecord` represents both as None. The `DomEvent` of a key event still carries the four integer fields, which the model ignores.
- Only element nodes are represented. Text nodes and comments never affect the sibling walk, since the source uses `previousElementSibling`. The `depth` field of a node is a model-only ranking that makes the upward walks terminate.
- Ids, names, builder answers and port arguments are strings, and `undefined` is `None`. A builder's falsy answer is the empty string. Other JavaScript values (numbers, `null`, objects) are not modelled.
- The strategy is modelled as a tag. The source stores the method itself in `getTargetInfo`, so `this.getTargetInfo` is a function, not an enumeration.
- Proxy.EventProxy.OnMessage: runs `setStrategy`, `setXPathBuilder` and `constructor` (which empties the press table; its reassignment of `window`, `document` and `chrome` from the arguments is not modelled). Every other truthy member is only reported as `Delegated`, and its effects are not captured:
  - `send` posts its first argument to the parent window or the port (lines 170-181);
  - `sendEvent` and `passEvent` process their first argument as an event, and `sendEvent` can write the press table (line 206);
  - `connect` re-registers the listeners and reopens the port;
  - `getElementXPathInfo`, `getElementTextPathInfo` and `getTargetInfo` only compute a locator;
  - members that are not functions (`window`, `lastMouseDown`, `port`, a builder name, ...) make `apply` throw a TypeError.
  So its guarantee that nothing else changes the press table holds only for the members it runs.
- Proxy.EventProxy.PassEvent: does not model the in-place `unshift` on the received detail (line 160). The record is a value, so aliasing of the received object is not captured.
- Proxy.EventProxy.SendEvent: uses the corrected drag test; the written one is the second finding.
- Proxy.EventProxy.GetElementTextPathInfo: uses the `.path` of `getElementXPathInfo(element, true)` as the prefix; what is written is the first finding.
- LocatorProperties.TextPathUsesBuilder: describes the corrected line 91 of the first finding, whose prefix is `getElementXPathInfo(element, true).path`; with a builder installed that prefix is the builder's answer. As written, line 91 concatenates the returned object, so the builder runs but its answer never reaches the text path (`LocatorProperties.TextPathAsWrittenCollides` holds for every builder name). The comment at lib/EventProxy.js:277 says the builder applies only under the xpath strategy; that holds of the code as written, and only the corrected line 91 lets the builder reach text paths.
- LocatorProperties.TextPathForms: describes the corrected line 91 of the first finding; as written, an ambiguous text path is `[object Object]` followed by the predicate (`Locators.TextPathInfoAsWritten`).
- Locators.TextPathInfo: its body is the corrected line 91 of the first finding; its contract (the locator denotes the element) holds of the code as written too.
- NormalizerProperties.ClickFilter: describes the corrected line 198 of the second finding (the two-sided drag test `Normalizer.IsDrag`); as written, a click more than five pixels above its press and within five pixels horizontally is sent, not dropped.
- Normalizer.Normalize: its body uses the corrected line 198 of the second finding; its contract (only clicks are dropped, an emitted record needs a strategy, has an empty frame path and keeps the event's type) holds of the code as written too.

## Findings

| source | as written | input that shows it | evidently intended | confidence | as-written member | corrected member |
|---|---|---|---|---|---|---|
| lib/EventProxy.js:91 | `path = this.getElementXPathInfo(element, true) + path` concatenates the returned `{path, element}` object, which becomes the string `[object Object]` | two LI elements with the same text "x" in one list (the candidate `//LI[normalize-space(string())="x"]` matches both): both get `[object Object][normalize-space(string())="x"]` | prefix with `getElementXPathInfo(element, true).path`, which gives distinct paths for distinct elements | not executed | LocatorProperties.TextPathAsWrittenCollides | LocatorProperties.TextPathDisambiguates |
| lib/EventProxy.js:198 | `Math.abs(event.clientY - lastMouseDown[...].event.clientY > 5)` takes the absolute value of the comparison, so the vertical test is one-sided (`dy > 5`) | press at (100, 100), click at (100, 90): a ten-pixel upward drag is not filtered | `Math.abs(dy) > 5`, the same five-pixel threshold in either direction on either axis | not executed | NormalizerProperties.UpwardDragPassesAsWritten | NormalizerProperties.DragTestIsDirectionBlind |
