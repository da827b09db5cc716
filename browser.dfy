/** The part of the browser the event proxy reads: the element tree of a document
    and the primitives it asks the browser for (text content, XPath matching,
    hit testing, bounding rectangles, functions on the global object). */
module Browser {
  import opened Wrappers

  type NodeId = int

  /** An element (or the document node itself). `children` holds the element
      children only, in document order: the proxy consults siblings solely through
      `previousElementSibling` and `nextElementSibling`. `depth` is the number of
      ancestors; it is what makes every upward walk terminate. */
  datatype Node = Node(nodeName: string, id: string, parent: Option<NodeId>, children: seq<NodeId>, depth: nat)

  /** `root` is the document node, `body` is `document.body`. */
  datatype Document = Document(nodes: map<NodeId, Node>, root: NodeId, body: NodeId)

  /** The parent link of `n` is mirrored by the parent's child list. */
  predicate Linked(doc: Document, n: NodeId)
    requires n in doc.nodes
  {
    match doc.nodes[n].parent
    case None => n == doc.root
    case Some(p) => p in doc.nodes && doc.nodes[p].depth < doc.nodes[n].depth && n in doc.nodes[p].children
  }

  /** A document tree: every node but the document node hangs below it. */
  predicate Valid(doc: Document) {
    && doc.root in doc.nodes
    && doc.body in doc.nodes
    && doc.nodes[doc.root].parent.None?
    && doc.nodes[doc.root].id == ""
    && (forall n | n in doc.nodes :: Linked(doc, n))
    && (forall n, k | n in doc.nodes && 0 <= k < |doc.nodes[n].children| :: doc.nodes[n].children[k] in doc.nodes)
  }

  /** Tag names a structural path can be split back into: non-empty, and free of
      the `/` separator and of the `[` that opens a rank. */
  predicate WellNamed(doc: Document) {
    forall n | n in doc.nodes :: doc.nodes[n].nodeName != "" && '/' !in doc.nodes[n].nodeName && '[' !in doc.nodes[n].nodeName
  }

  /** The first position of `x` in `s`. */
  function IndexOf(s: seq<NodeId>, x: NodeId): (i: nat)
    requires x in s
    ensures i < |s| && s[i] == x && x !in s[..i]
  {
    if s[0] == x then 0 else IndexOf(s[1..], x) + 1
  }

  /** The element children of `n`'s parent, `n` among them. */
  function Siblings(doc: Document, n: NodeId): (s: seq<NodeId>)
    requires Valid(doc) && n in doc.nodes && doc.nodes[n].parent.Some?
    ensures n in s && forall k | 0 <= k < |s| :: s[k] in doc.nodes
  {
    doc.nodes[doc.nodes[n].parent.value].children
  }

  /** `n`'s index among its parent's element children. */
  function Position(doc: Document, n: NodeId): nat
    requires Valid(doc) && n in doc.nodes && doc.nodes[n].parent.Some?
  {
    IndexOf(Siblings(doc, n), n)
  }

  /** `previousElementSibling || nextElementSibling`. */
  predicate HasElementSiblings(doc: Document, n: NodeId)
    requires Valid(doc) && n in doc.nodes && doc.nodes[n].parent.Some?
  {
    Position(doc, n) > 0 || Position(doc, n) + 1 < |Siblings(doc, n)|
  }

  /** How many of `s` carry the tag name `name`. */
  function CountNamed(doc: Document, s: seq<NodeId>, name: string): nat
    requires forall k | 0 <= k < |s| :: s[k] in doc.nodes
  {
    if s == [] then 0
    else (if doc.nodes[s[0]].nodeName == name then 1 else 0) + CountNamed(doc, s[1..], name)
  }

  /** `n`, its parent, its grandparent, ... up to the document node. */
  function Ancestry(doc: Document, n: NodeId): (a: seq<NodeId>)
    requires Valid(doc) && n in doc.nodes
    ensures |a| >= 1 && a[0] == n && a[|a| - 1] == doc.root
    ensures forall k | 0 <= k < |a| :: a[k] in doc.nodes
    decreases doc.nodes[n].depth
  {
    match doc.nodes[n].parent
    case None => [n]
    case Some(p) => [n] + Ancestry(doc, p)
  }

  /** The nodes a custom builder is offered: `n` and its ancestors, stopping before
      the document node. */
  function BuilderChain(doc: Document, n: NodeId): (c: seq<NodeId>)
    requires Valid(doc) && n in doc.nodes
    ensures forall k | 0 <= k < |c| :: c[k] in doc.nodes && c[k] != doc.root
    ensures c != [] ==> c[0] == n
    decreases doc.nodes[n].depth
  {
    if n == doc.root then []
    else match doc.nodes[n].parent
      case None => [n]
      case Some(p) => [n] + BuilderChain(doc, p)
  }

  /** The origin of `getBoundingClientRect()`, in whole pixels. */
  datatype Rect = Rect(left: int, top: int)

  /** A custom XPath builder on the page's global object: the path it proposes
      for a node, the empty string standing for a falsy answer. */
  type Builder = NodeId -> string

  /** What the browser answers at one moment: the document, the functions on the
      global object, `normalize-space(string())` of a node, how many nodes an
      XPath selects in the document, `elementsFromPoint(x, y)` (topmost first)
      and `getBoundingClientRect()`. */
  datatype Page = Page(
    doc: Document,
    globals: map<string, Builder>,
    text: NodeId -> string,
    matchCount: string -> nat,
    hits: (int, int) -> seq<NodeId>,
    rect: NodeId -> Rect)
}
