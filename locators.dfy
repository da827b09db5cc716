/** The two locator strategies of the event proxy: the structural path built by
    `getElementXPathInfo` (with its custom-builder branch) and the text path built
    by `getElementTextPathInfo`. Everything here is the specification the
    imperative resolvers in module Proxy are proved against, together with what
    it guarantees. */
module Locators {
  import opened Wrappers
  import opened Browser

  /** `{path, element}`: the XPath string and the element it is meant to denote. */
  datatype Locator = Locator(path: string, element: NodeId)

  /** One segment of a structural path: `id("…")`, `NAME`, `NAME[k]`, or the empty
      segment of the document node. */
  datatype Step = Anchor(id: string) | Tag(name: string, rank: Option<nat>) | Top

  // ---------------------------------------------------------------- rendering

  function Digit(d: nat): (c: char)
    requires d < 10
    ensures '0' <= c <= '9'
  {
    ('0' as int + d) as char
  }

  /** The decimal numeral JavaScript prints for a non-negative integer. */
  function Decimal(n: nat): (s: string)
    ensures |s| >= 1
    ensures forall k | 0 <= k < |s| :: '0' <= s[k] <= '9'
  {
    if n < 10 then [Digit(n)] else Decimal(n / 10) + [Digit(n % 10)]
  }

  function Render(s: Step): string {
    match s
    case Anchor(id) => "id(\"" + id + "\")"
    case Tag(name, None) => name
    case Tag(name, Some(k)) => name + "[" + Decimal(k) + "]"
    case Top => ""
  }

  function RenderAll(steps: seq<Step>): seq<string> {
    seq(|steps|, k requires 0 <= k < |steps| => Render(steps[k]))
  }

  /** `Array.prototype.join`. */
  function Join(parts: seq<string>, sep: string): string {
    if |parts| == 0 then ""
    else if |parts| == 1 then parts[0]
    else parts[0] + sep + Join(parts[1..], sep)
  }

  // ---------------------------------------------------------- structural path

  /** 1 plus the number of preceding element siblings with `n`'s tag name. */
  function Rank(doc: Document, n: NodeId): nat
    requires Valid(doc) && n in doc.nodes && doc.nodes[n].parent.Some?
  {
    1 + CountNamed(doc, Siblings(doc, n)[..Position(doc, n)], doc.nodes[n].nodeName)
  }

  /** The segment a node contributes when it is not anchored by its id. */
  function StepOf(doc: Document, n: NodeId): Step
    requires Valid(doc) && n in doc.nodes
  {
    match doc.nodes[n].parent
    case None => Top
    case Some(_) =>
      Tag(doc.nodes[n].nodeName, if HasElementSiblings(doc, n) then Some(Rank(doc, n)) else None)
  }

  /** The segments of the structural path of `n`, root first. */
  function Walk(doc: Document, n: NodeId, ignoreId: bool): (w: seq<Step>)
    requires Valid(doc) && n in doc.nodes
    ensures |w| >= 1 && (w[0].Anchor? || w[0].Top?)
    ensures forall k | 1 <= k < |w| :: w[k].Tag?
    ensures ignoreId ==> w[0].Top?
    decreases doc.nodes[n].depth
  {
    if doc.nodes[n].id != "" && !ignoreId then [Anchor(doc.nodes[n].id)]
    else match doc.nodes[n].parent
      case None => [Top]
      case Some(p) => Walk(doc, p, ignoreId) + [StepOf(doc, n)]
  }

  /** `getElementXPathInfo` without a custom builder. */
  function StructuralInfo(doc: Document, n: NodeId, ignoreId: bool): (r: Locator)
    requires Valid(doc) && n in doc.nodes
    ensures r.element == n
  {
    Locator(Join(RenderAll(Walk(doc, n, ignoreId)), "/"), n)
  }

  // ----------------------------------------------------------- custom builder

  /** The first node of `chain` the builder answers for, with its answer, or
      `//BODY` and the body when it answers for none. */
  function CustomLocate(doc: Document, f: Builder, chain: seq<NodeId>): (r: Locator)
    ensures r.path != ""
    ensures r == Locator("//BODY", doc.body) || (r.element in chain && r.path == f(r.element))
  {
    if chain == [] then Locator("//BODY", doc.body)
    else if f(chain[0]) != "" then Locator(f(chain[0]), chain[0])
    else CustomLocate(doc, f, chain[1..])
  }

  /** `this.xpathBuilder && this.window[this.xpathBuilder]`. */
  predicate HasBuilder(page: Page, xpathBuilder: Option<string>) {
    xpathBuilder.Some? && xpathBuilder.value != "" && xpathBuilder.value in page.globals
  }

  /** `getElementXPathInfo(n, ignoreId)`. */
  function XPathInfo(page: Page, xpathBuilder: Option<string>, n: NodeId, ignoreId: bool): (r: Locator)
    requires Valid(page.doc) && n in page.doc.nodes
    ensures !HasBuilder(page, xpathBuilder) ==> r.element == n
    ensures HasBuilder(page, xpathBuilder) ==> r.path != "" && (r.element == page.doc.body || r.element in BuilderChain(page.doc, n))
  {
    if HasBuilder(page, xpathBuilder) then
      CustomLocate(page.doc, page.globals[xpathBuilder.value], BuilderChain(page.doc, n))
    else StructuralInfo(page.doc, n, ignoreId)
  }

  // ---------------------------------------------------------------- text path

  /** `s.replace(/"/g, '&quot;')`. */
  function Escape(s: string): (r: string)
    ensures '"' !in r
  {
    if s == [] then []
    else (if s[0] == '"' then "&quot;" else [s[0]]) + Escape(s[1..])
  }

  const PredicateOpen: string := "[normalize-space(string())=\""

  /** The text predicate of a text path. */
  function TextPredicate(text: string): string {
    PredicateOpen + Escape(text) + "\"]"
  }

  /** `getElementTextPathInfo(e)` with line 91 corrected: its prefix is the
      `path` of `getElementXPathInfo(e, true)`, the structural path or the custom
      builder's answer (see the as-written version below). */
  function TextPathInfo(page: Page, xpathBuilder: Option<string>, e: NodeId): (r: Locator)
    requires Valid(page.doc) && e in page.doc.nodes
    ensures r.element == e
  {
    var tagPrefix := "//" + page.doc.nodes[e].nodeName;
    var textPredicate := TextPredicate(page.text(e));
    if page.matchCount(tagPrefix + textPredicate) >= 2 then
      Locator(XPathInfo(page, xpathBuilder, e, true).path + textPredicate, e)
    else Locator(tagPrefix + textPredicate, e)
  }

  /** `getElementTextPathInfo(e)` as written: on several matches it prepends the
      locator OBJECT that `getElementXPathInfo` returns, which JavaScript turns
      into the string "[object Object]". */
  function TextPathInfoAsWritten(page: Page, xpathBuilder: Option<string>, e: NodeId): (r: Locator)
    requires Valid(page.doc) && e in page.doc.nodes
    ensures r.element == e
  {
    var tagPrefix := "//" + page.doc.nodes[e].nodeName;
    var textPredicate := TextPredicate(page.text(e));
    if page.matchCount(tagPrefix + textPredicate) >= 2 then Locator("[object Object]" + textPredicate, e)
    else Locator(tagPrefix + textPredicate, e)
  }
}
