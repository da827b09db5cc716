/** What the structural and text locators guarantee. */
module LocatorProperties {
  import opened Wrappers
  import opened Browser
  import opened Locators

  // ------------------------------------------------ shape of the structural path

  /** The segments of the nodes `a` (listed bottom-up), root first. */
  function RootFirst(doc: Document, a: seq<NodeId>): (w: seq<Step>)
    requires Valid(doc) && forall k | 0 <= k < |a| :: a[k] in doc.nodes
    ensures |w| == |a|
    ensures forall k | 0 <= k < |a| :: w[|a| - 1 - k] == StepOf(doc, a[k])
  {
    if a == [] then [] else RootFirst(doc, a[1..]) + [StepOf(doc, a[0])]
  }

  /** With ids honoured, the walk stops at the nearest ancestor-or-self `a[m]`
      with a non-empty id: the path opens with its `id("…")` anchor, followed by
      one segment for each of the `m` nodes below it and nothing from the nodes
      above it. */
  lemma {:induction false} WalkAnchoredAtNearestId(doc: Document, n: NodeId, m: nat)
    requires Valid(doc) && n in doc.nodes
    requires m < |Ancestry(doc, n)| && doc.nodes[Ancestry(doc, n)[m]].id != ""
    requires forall k | 0 <= k < m :: doc.nodes[Ancestry(doc, n)[k]].id == ""
    ensures Walk(doc, n, false) ==
      [Anchor(doc.nodes[Ancestry(doc, n)[m]].id)] + RootFirst(doc, Ancestry(doc, n)[..m])
    decreases m
  {
    var a := Ancestry(doc, n);
    if m > 0 {
      assert doc.nodes[a[0]].id == "";
      var p := doc.nodes[n].parent.value;
      var ap := Ancestry(doc, p);
      assert a == [n] + ap;
      forall k | 0 <= k < m - 1 ensures doc.nodes[ap[k]].id == "" {
        assert ap[k] == a[k + 1];
      }
      WalkAnchoredAtNearestId(doc, p, m - 1);
      assert a[..m][1..] == ap[..m - 1];
    }
  }

  /** Without an anchor (ids ignored, or none on the way up), every node from `n`
      up to the document node contributes exactly its own segment, root first. */
  lemma {:induction false} WalkWithoutAnchor(doc: Document, n: NodeId, ignoreId: bool)
    requires Valid(doc) && n in doc.nodes
    requires ignoreId || forall k | 0 <= k < |Ancestry(doc, n)| :: doc.nodes[Ancestry(doc, n)[k]].id == ""
    ensures Walk(doc, n, ignoreId) == RootFirst(doc, Ancestry(doc, n))
    decreases doc.nodes[n].depth
  {
    var a := Ancestry(doc, n);
    assert ignoreId || doc.nodes[n].id == "" by {
      if !ignoreId {
        assert 0 < |Ancestry(doc, n)| && Ancestry(doc, n)[0] == n;
        assert doc.nodes[Ancestry(doc, n)[0]].id == "";
      }
    }
    if doc.nodes[n].parent.Some? {
      var p := doc.nodes[n].parent.value;
      var ap := Ancestry(doc, p);
      assert a == [n] + ap;
      assert ignoreId || forall k | 0 <= k < |ap| :: doc.nodes[ap[k]].id == "" by {
        if !ignoreId {
          forall k | 0 <= k < |ap| ensures doc.nodes[ap[k]].id == "" {
            assert ap[k] == a[k + 1];
          }
        }
      }
      WalkWithoutAnchor(doc, p, ignoreId);
      assert a[1..] == ap;
    }
  }

  lemma JoinHead(parts: seq<string>, sep: string)
    requires |parts| >= 1
    ensures |parts[0]| <= |Join(parts, sep)| && Join(parts, sep)[..|parts[0]|] == parts[0]
  {
  }

  /** The path of a node anchored by an id starts with that anchor; the element
      returned is the node itself. */
  lemma PathAnchoredAtNearestId(doc: Document, n: NodeId, m: nat)
    requires Valid(doc) && n in doc.nodes
    requires m < |Ancestry(doc, n)| && doc.nodes[Ancestry(doc, n)[m]].id != ""
    requires forall k | 0 <= k < m :: doc.nodes[Ancestry(doc, n)[k]].id == ""
    ensures StructuralInfo(doc, n, false).element == n
    ensures var anchor := "id(\"" + doc.nodes[Ancestry(doc, n)[m]].id + "\")";
      var path := StructuralInfo(doc, n, false).path;
      |anchor| <= |path| && path[..|anchor|] == anchor
  {
    WalkAnchoredAtNearestId(doc, n, m);
    JoinHead(RenderAll(Walk(doc, n, false)), "/");
  }

  /** An id-free path of any node below the document node begins with `/`
      (the document node's empty segment), one segment per node walked. */
  lemma PathWithoutAnchor(doc: Document, n: NodeId, ignoreId: bool)
    requires Valid(doc) && n in doc.nodes && n != doc.root
    requires ignoreId || forall k | 0 <= k < |Ancestry(doc, n)| :: doc.nodes[Ancestry(doc, n)[k]].id == ""
    ensures StructuralInfo(doc, n, ignoreId).element == n
    ensures |RenderAll(Walk(doc, n, ignoreId))| == |Ancestry(doc, n)| >= 2
    ensures |StructuralInfo(doc, n, ignoreId).path| >= 1 && StructuralInfo(doc, n, ignoreId).path[0] == '/'
  {
    var a := Ancestry(doc, n);
    WalkWithoutAnchor(doc, n, ignoreId);
    var w := Walk(doc, n, ignoreId);
    assert w[0] == StepOf(doc, a[|a| - 1]) == Top;
    assert |w| == |a|;
    var parts := RenderAll(w);
    assert parts[0] == "";
    assert Join(parts, "/") == parts[0] + "/" + Join(parts[1..], "/");
  }

  // ---------------------------------------- the structural path is one-to-one

  lemma {:induction false} CountNamedAppend(doc: Document, x: seq<NodeId>, y: seq<NodeId>, name: string)
    requires forall k | 0 <= k < |x| :: x[k] in doc.nodes
    requires forall k | 0 <= k < |y| :: y[k] in doc.nodes
    ensures CountNamed(doc, x + y, name) == CountNamed(doc, x, name) + CountNamed(doc, y, name)
  {
    if x == [] {
      assert x + y == y;
    } else {
      assert (x + y)[1..] == x[1..] + y;
      CountNamedAppend(doc, x[1..], y, name);
    }
  }

  /** A later sibling with the same tag name has a strictly larger rank count. */
  lemma CountNamedGrows(doc: Document, s: seq<NodeId>, i: nat, j: nat)
    requires forall k | 0 <= k < |s| :: s[k] in doc.nodes
    requires i < j <= |s|
    ensures CountNamed(doc, s[..j], doc.nodes[s[i]].nodeName) > CountNamed(doc, s[..i], doc.nodes[s[i]].nodeName)
  {
    var name := doc.nodes[s[i]].nodeName;
    assert s[..j] == s[..i] + s[i..j];
    CountNamedAppend(doc, s[..i], s[i..j], name);
  }

  /** Two children of one parent that render the same segment are the same node. */
  lemma SameStepSameNode(doc: Document, a: NodeId, b: NodeId)
    requires Valid(doc) && a in doc.nodes && b in doc.nodes
    requires doc.nodes[a].parent.Some? && doc.nodes[a].parent == doc.nodes[b].parent
    requires StepOf(doc, a) == StepOf(doc, b)
    ensures a == b
  {
    var s := Siblings(doc, a);
    assert s == Siblings(doc, b);
    var i, j := Position(doc, a), Position(doc, b);
    if i < j {
      CountNamedGrows(doc, s, i, j);
      assert false;
    } else if j < i {
      CountNamedGrows(doc, s, j, i);
      assert false;
    }
  }

  /** Ignoring ids, distinct nodes of a document have distinct segment lists. */
  lemma {:induction false} WalkInjective(doc: Document, a: NodeId, b: NodeId)
    requires Valid(doc) && a in doc.nodes && b in doc.nodes
    requires Walk(doc, a, true) == Walk(doc, b, true)
    ensures a == b
    decreases doc.nodes[a].depth
  {
    assert Linked(doc, a) && Linked(doc, b);
    var wa, wb := Walk(doc, a, true), Walk(doc, b, true);
    match doc.nodes[a].parent
    case None =>
      if doc.nodes[b].parent.Some? {
        assert false;
      }
    case Some(p) =>
      match doc.nodes[b].parent
      case None =>
        assert false;
      case Some(q) =>
        assert wa[..|wa| - 1] == Walk(doc, p, true);
        assert wb[..|wb| - 1] == Walk(doc, q, true);
        WalkInjective(doc, p, q);
        assert wa[|wa| - 1] == StepOf(doc, a) && wb[|wb| - 1] == StepOf(doc, b);
        SameStepSameNode(doc, a, b);
  }

  /** The segments a structural walk can produce in a well-named document. */
  predicate PathStep(s: Step) {
    s.Top? || (s.Tag? && s.name != "" && '/' !in s.name && '[' !in s.name)
  }

  lemma StepOfIsPathStep(doc: Document, x: NodeId)
    requires Valid(doc) && WellNamed(doc) && x in doc.nodes
    ensures PathStep(StepOf(doc, x))
  {
  }

  lemma WalkStepsArePathSteps(doc: Document, n: NodeId)
    requires Valid(doc) && WellNamed(doc) && n in doc.nodes
    ensures forall k | 0 <= k < |Walk(doc, n, true)| :: PathStep(Walk(doc, n, true)[k])
  {
    WalkWithoutAnchor(doc, n, true);
    var a := Ancestry(doc, n);
    var w := RootFirst(doc, a);
    forall k | 0 <= k < |w| ensures PathStep(w[k]) {
      assert w[k] == StepOf(doc, a[|a| - 1 - k]);
      StepOfIsPathStep(doc, a[|a| - 1 - k]);
    }
  }

  // ---------------------------------------- reading a structural path back

  /** The value of a decimal numeral (the inverse of Decimal). */
  function DecimalValue(s: string): nat {
    if s == [] then 0
    else 10 * DecimalValue(s[..|s| - 1]) + (if '0' <= s[|s| - 1] <= '9' then s[|s| - 1] as int - '0' as int else 0)
  }

  lemma {:induction false} DecimalRoundTrip(n: nat)
    ensures DecimalValue(Decimal(n)) == n
  {
    var d := Decimal(n);
    if n >= 10 {
      assert d[..|d| - 1] == Decimal(n / 10);
      DecimalRoundTrip(n / 10);
    } else {
      assert d[..|d| - 1] == [];
    }
  }

  /** The first position of `c` in `s`, or `|s|` when there is none. */
  function FirstIndex(s: string, c: char): (i: nat)
    ensures i <= |s|
  {
    if s == [] then 0 else if s[0] == c then 0 else 1 + FirstIndex(s[1..], c)
  }

  lemma {:induction false} FirstIndexAbsent(s: string, c: char)
    requires c !in s
    ensures FirstIndex(s, c) == |s|
  {
    if s != [] {
      FirstIndexAbsent(s[1..], c);
    }
  }

  lemma {:induction false} FirstIndexAfter(x: string, c: char, r: string)
    requires c !in x
    ensures FirstIndex(x + [c] + r, c) == |x|
  {
    if x != [] {
      assert (x + [c] + r)[1..] == x[1..] + [c] + r;
      FirstIndexAfter(x[1..], c, r);
    }
  }

  /** `String.prototype.split` on a one-character separator. */
  function Split(s: string, sep: char): seq<string>
    decreases |s|
  {
    var i := FirstIndex(s, sep);
    if i == |s| then [s] else [s[..i]] + Split(s[i + 1..], sep)
  }

  /** Splitting a joined path at `/` gives its segments back. */
  lemma {:induction false} SplitJoin(parts: seq<string>)
    requires |parts| >= 1 && forall k | 0 <= k < |parts| :: '/' !in parts[k]
    ensures Split(Join(parts, "/"), '/') == parts
  {
    if |parts| == 1 {
      FirstIndexAbsent(parts[0], '/');
    } else {
      var rest := Join(parts[1..], "/");
      var s := Join(parts, "/");
      assert s == parts[0] + ['/'] + rest;
      FirstIndexAfter(parts[0], '/', rest);
      assert s[..|parts[0]|] == parts[0] && s[|parts[0]| + 1..] == rest;
      SplitJoin(parts[1..]);
      assert parts == [parts[0]] + parts[1..];
    }
  }

  lemma RenderHasNoSlash(s: Step)
    requires PathStep(s)
    ensures '/' !in Render(s)
  {
    if s.Tag? && s.rank.Some? {
      var d := Decimal(s.rank.value);
      var r := Render(s);
      assert r == s.name + "[" + d + "]";
      forall k | 0 <= k < |r| ensures r[k] != '/' {
        if k < |s.name| { assert r[k] == s.name[k]; }
        else if |s.name| < k < |s.name| + 1 + |d| { assert r[k] == d[k - |s.name| - 1]; }
      }
    }
  }

  /** Reads one segment back (the inverse of Render on segments of a walk). */
  function ParseStep(r: string): Step {
    if r == "" then Top
    else
      var i := FirstIndex(r, '[');
      if i == |r| then Tag(r, None)
      else Tag(r[..i], Some(DecimalValue(if i + 1 <= |r| - 1 then r[i + 1..|r| - 1] else "")))
  }

  lemma ParseRender(s: Step)
    requires PathStep(s)
    ensures ParseStep(Render(s)) == s
  {
    match s
    case Top =>
    case Tag(name, None) =>
      FirstIndexAbsent(name, '[');
    case Tag(name, Some(k)) =>
      var d := Decimal(k);
      var r := Render(s);
      assert r == name + ['['] + (d + "]");
      FirstIndexAfter(name, '[', d + "]");
      assert r[..|name|] == name && r[|name| + 1..|r| - 1] == d;
      DecimalRoundTrip(k);
  }

  /** Reads a structural path back into its segments. */
  function ParsePath(path: string): seq<Step> {
    var parts := Split(path, '/');
    seq(|parts|, k requires 0 <= k < |parts| => ParseStep(parts[k]))
  }

  /** The id-free structural path of a node of a well-named document can be read
      back into exactly the segments of its walk. */
  lemma PathRoundTrip(doc: Document, n: NodeId)
    requires Valid(doc) && WellNamed(doc) && n in doc.nodes
    ensures ParsePath(StructuralInfo(doc, n, true).path) == Walk(doc, n, true)
  {
    var w := Walk(doc, n, true);
    WalkStepsArePathSteps(doc, n);
    WalkWithoutAnchor(doc, n, true);
    var parts := RenderAll(w);
    forall k | 0 <= k < |parts| ensures '/' !in parts[k] { RenderHasNoSlash(w[k]); }
    SplitJoin(parts);
    forall k | 0 <= k < |w| ensures ParseStep(parts[k]) == w[k] { ParseRender(w[k]); }
  }

  /** In a well-named document the id-free structural path re-identifies its
      element: distinct nodes never share one. */
  lemma StructuralPathUnique(doc: Document, a: NodeId, b: NodeId)
    requires Valid(doc) && WellNamed(doc) && a in doc.nodes && b in doc.nodes
    requires StructuralInfo(doc, a, true).path == StructuralInfo(doc, b, true).path
    ensures a == b
  {
    PathRoundTrip(doc, a);
    PathRoundTrip(doc, b);
    WalkInjective(doc, a, b);
  }

  // ------------------------------------------------------------ custom builder

  /** The custom branch answers with the first node of the chain the builder
      answers for, or with `//BODY` and the body when it answers for none. */
  lemma {:induction false} CustomLocateFirstHit(doc: Document, f: Builder, chain: seq<NodeId>)
    ensures (forall k | 0 <= k < |chain| :: f(chain[k]) == "") ==>
      CustomLocate(doc, f, chain) == Locator("//BODY", doc.body)
    ensures forall i | 0 <= i < |chain| && f(chain[i]) != "" && (forall k | 0 <= k < i :: f(chain[k]) == "") ::
      CustomLocate(doc, f, chain) == Locator(f(chain[i]), chain[i])
  {
    if chain != [] && f(chain[0]) == "" {
      CustomLocateFirstHit(doc, f, chain[1..]);
      assert forall k | 0 <= k < |chain| - 1 :: chain[1..][k] == chain[k + 1];
    }
  }

  /** With a builder installed and present on the page, `getElementXPathInfo`
      tries `n` and then each ancestor up to (not including) the document node,
      and returns the first answer with the node that gave it, falling back to
      `//BODY`; `ignoreId` makes no difference on this branch. */
  lemma CustomBuilderFirstHit(page: Page, xpathBuilder: Option<string>, n: NodeId, ignoreId: bool)
    requires Valid(page.doc) && n in page.doc.nodes && HasBuilder(page, xpathBuilder)
    ensures XPathInfo(page, xpathBuilder, n, ignoreId) == XPathInfo(page, xpathBuilder, n, !ignoreId)
    ensures var f, c := page.globals[xpathBuilder.value], BuilderChain(page.doc, n);
      Unanswered(f, c, |c|) ==> XPathInfo(page, xpathBuilder, n, ignoreId) == Locator("//BODY", page.doc.body)
    ensures var f, c := page.globals[xpathBuilder.value], BuilderChain(page.doc, n);
      forall i | 0 <= i < |c| && f(c[i]) != "" && Unanswered(f, c, i) ::
        XPathInfo(page, xpathBuilder, n, ignoreId) == Locator(f(c[i]), c[i])
  {
    var f, c := page.globals[xpathBuilder.value], BuilderChain(page.doc, n);
    assert XPathInfo(page, xpathBuilder, n, ignoreId) == CustomLocate(page.doc, f, c);
    assert XPathInfo(page, xpathBuilder, n, !ignoreId) == CustomLocate(page.doc, f, c);
    CustomLocateFirstHit(page.doc, f, c);
  }

  /** The builder answers for none of the first `i` nodes of `c`. */
  predicate Unanswered(f: Builder, c: seq<NodeId>, i: nat)
    requires i <= |c|
  {
    forall k | 0 <= k < i :: f(c[k]) == ""
  }

  // ----------------------------------------------------------------- text path

  /** Escaping leaves quote-free text alone. */
  lemma {:induction false} EscapeQuoteFree(s: string)
    requires '"' !in s
    ensures Escape(s) == s
  {
    if s != [] {
      EscapeQuoteFree(s[1..]);
      assert s == [s[0]] + s[1..];
    }
  }

  /** Escaping works character by character. */
  lemma {:induction false} EscapeAppend(a: string, b: string)
    ensures Escape(a + b) == Escape(a) + Escape(b)
  {
    if a == [] {
      assert a + b == b;
    } else {
      assert (a + b)[1..] == a[1..] + b;
      EscapeAppend(a[1..], b);
    }
  }

  /** The only quotes of a text predicate are the two that delimit the string
      literal, so no text can close the literal early. */
  lemma TextPredicateDelimited(text: string)
    ensures var p := TextPredicate(text);
      forall k | 0 <= k < |p| :: p[k] == '"' <==> (k == |PredicateOpen| - 1 || k == |p| - 2)
  {
    var p := TextPredicate(text);
    var e := Escape(text);
    assert p == PredicateOpen + e + "\"]";
    forall k | 0 <= k < |p| ensures p[k] == '"' <==> (k == |PredicateOpen| - 1 || k == |p| - 2) {
      if k < |PredicateOpen| {
        assert p[k] == PredicateOpen[k];
      } else if k < |PredicateOpen| + |e| {
        assert p[k] == e[k - |PredicateOpen|];
      }
    }
  }

  /** The text path (first finding corrected) names the element it was asked
      for, and has one of two forms: the bare tag path when the candidate selects
      a single node, otherwise the path of `XPathInfo` with ids ignored (the
      structural path, or the custom builder's answer when one is installed);
      both end with the predicate. */
  lemma TextPathForms(page: Page, xpathBuilder: Option<string>, e: NodeId)
    requires Valid(page.doc) && e in page.doc.nodes
    ensures var r, p := TextPathInfo(page, xpathBuilder, e), TextPredicate(page.text(e));
      var candidate := "//" + page.doc.nodes[e].nodeName + p;
      && r.element == e
      && (page.matchCount(candidate) < 2 ==> r.path == candidate)
      && (page.matchCount(candidate) >= 2 ==> r.path == XPathInfo(page, xpathBuilder, e, true).path + p)
  {
  }

  /** With line 91 corrected and a custom builder installed, an ambiguous text
      path is prefixed by the builder's answer, not by a structural path. As
      written the object is concatenated instead, and the answer is lost (see
      `TextPathAsWrittenCollides`). When the builder answers for the element
      itself, that answer is the prefix. */
  lemma TextPathUsesBuilder(page: Page, xpathBuilder: Option<string>, e: NodeId)
    requires Valid(page.doc) && e in page.doc.nodes && HasBuilder(page, xpathBuilder)
    requires page.matchCount("//" + page.doc.nodes[e].nodeName + TextPredicate(page.text(e))) >= 2
    ensures var f := page.globals[xpathBuilder.value];
      TextPathInfo(page, xpathBuilder, e).path
        == CustomLocate(page.doc, f, BuilderChain(page.doc, e)).path + TextPredicate(page.text(e))
    ensures var f := page.globals[xpathBuilder.value];
      e != page.doc.root && f(e) != "" ==> TextPathInfo(page, xpathBuilder, e).path == f(e) + TextPredicate(page.text(e))
  {
    var f := page.globals[xpathBuilder.value];
    var chain := BuilderChain(page.doc, e);
    assert XPathInfo(page, xpathBuilder, e, true) == CustomLocate(page.doc, f, chain);
    if e != page.doc.root {
      assert Linked(page.doc, e);
      assert chain[0] == e;
    }
  }

  /** Without a custom builder, an ambiguous text path is anchored by the id-free
      structural path: two distinct elements with the same text never get the
      same path. */
  lemma TextPathDisambiguates(page: Page, xpathBuilder: Option<string>, a: NodeId, b: NodeId)
    requires Valid(page.doc) && WellNamed(page.doc) && a in page.doc.nodes && b in page.doc.nodes
    requires !HasBuilder(page, xpathBuilder) && page.text(a) == page.text(b)
    requires page.matchCount("//" + page.doc.nodes[a].nodeName + TextPredicate(page.text(a))) >= 2
    requires page.matchCount("//" + page.doc.nodes[b].nodeName + TextPredicate(page.text(b))) >= 2
    requires TextPathInfo(page, xpathBuilder, a).path == TextPathInfo(page, xpathBuilder, b).path
    ensures a == b
  {
    var p := TextPredicate(page.text(a));
    var pa, pb := StructuralInfo(page.doc, a, true).path, StructuralInfo(page.doc, b, true).path;
    assert pa + p == pb + p;
    assert pa == (pa + p)[..|pa|] == (pb + p)[..|pb|] == pb;
    StructuralPathUnique(page.doc, a, b);
  }

  /** As written, the ambiguous text path is "[object Object]" followed by the
      predicate, whatever the element's position: every element with the same
      text gets the same path, which is the ambiguity the prefix exists to remove. */
  lemma TextPathAsWrittenCollides(page: Page, xpathBuilder: Option<string>, a: NodeId, b: NodeId)
    requires Valid(page.doc) && a in page.doc.nodes && b in page.doc.nodes
    requires page.text(a) == page.text(b)
    requires page.matchCount("//" + page.doc.nodes[a].nodeName + TextPredicate(page.text(a))) >= 2
    requires page.matchCount("//" + page.doc.nodes[b].nodeName + TextPredicate(page.text(b))) >= 2
    ensures TextPathInfoAsWritten(page, xpathBuilder, a).path == TextPathInfoAsWritten(page, xpathBuilder, b).path
    ensures TextPathInfoAsWritten(page, xpathBuilder, a).path == "[object Object]" + TextPredicate(page.text(a))
  {
  }
}
