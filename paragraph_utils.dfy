/**
 * Paragraph utilities of the translation editor: tagging the paragraphs of a document with
 * an id and an index, finding them again in a rendered pane, finding the paragraph at a scroll
 * position, and the inline styles that mark a highlighted or a completed paragraph.
 */
module ParagraphUtils {
  import opened Wrappers
  import opened Strings
  import opened Seqs
  import opened Dom

  /** The selector list `extractParagraphs` matches (tag names as the HTML parser lower-cases them). */
  const BLOCK_TAGS: seq<string> :=
    ["p", "h1", "h2", "h3", "h4", "h5", "h6", "div", "li", "blockquote", "article", "section"]

  const PARAGRAPH_ID := "data-paragraph-id"
  const PARAGRAPH_INDEX := "data-paragraph-index"

  /** Inline style values of a highlighted paragraph. */
  const HIGHLIGHT_BACKGROUND := "rgba(192, 192, 192, 0.3)"
  const HIGHLIGHT_TRANSITION := "background-color 150ms"
  const HIGHLIGHT_BORDER := "3px solid #808080"
  const HIGHLIGHT_PADDING := "8px"

  /** Inline style values of a completed paragraph. */
  const COMPLETE_OPACITY := "0.7"
  const COMPLETE_DECORATION := "line-through"
  /** Stands for the design token `colors.secondaryText`, whose value is not part of this model. */
  const SECONDARY_TEXT := "colors.secondaryText"

  predicate IsBlock(n: DomNode) {
    n.Elem? && n.tag in BLOCK_TAGS
  }

  // ---------------------------------------------------------------------------------------
  // extractParagraphs
  // ---------------------------------------------------------------------------------------

  /** The positions below `n` that the selector list matches, in document order. */
  function BlocksBelow(dom: seq<DomNode>, n: nat): (r: seq<nat>)
    requires n <= |dom|
    ensures forall i :: 0 <= i < |r| ==> r[i] < n && IsBlock(dom[r[i]])
    ensures forall i, j :: 0 <= i < j < |r| ==> r[i] < r[j]
    ensures forall p :: 0 <= p < n && IsBlock(dom[p]) ==> p in r
  {
    if n == 0 then [] else BlocksBelow(dom, n - 1) + (if IsBlock(dom[n - 1]) then [n - 1] else [])
  }

  /** `querySelectorAll(paragraphSelectors)`: every matching element, in document order. */
  function Blocks(dom: seq<DomNode>): seq<nat> {
    BlocksBelow(dom, |dom|)
  }

  /** The `index` that `forEach` passes for the element at `p`: the matches before it. */
  function BlockIndex(dom: seq<DomNode>, p: nat): nat
    requires p <= |dom|
  {
    |BlocksBelow(dom, p)|
  }

  lemma {:induction false} BlocksBelowPrefix(dom: seq<DomNode>, m: nat, n: nat)
    requires m <= n <= |dom|
    ensures |BlocksBelow(dom, m)| <= |BlocksBelow(dom, n)|
    ensures BlocksBelow(dom, m) == BlocksBelow(dom, n)[..|BlocksBelow(dom, m)|]
    decreases n - m
  {
    if m < n {
      BlocksBelowPrefix(dom, m, n - 1);
      var a, b := BlocksBelow(dom, n - 1), BlocksBelow(dom, n);
      assert a == b[..|a|];
    }
  }

  /** A match's `forEach` index locates it in the match list, and nothing else has that index. */
  lemma BlockIndexes(dom: seq<DomNode>)
    ensures forall p :: 0 <= p < |dom| && IsBlock(dom[p]) ==>
      BlockIndex(dom, p) < |Blocks(dom)| && Blocks(dom)[BlockIndex(dom, p)] == p
    ensures forall k :: 0 <= k < |Blocks(dom)| ==> BlockIndex(dom, Blocks(dom)[k]) == k
  {
    forall p | 0 <= p < |dom| && IsBlock(dom[p])
      ensures BlockIndex(dom, p) < |Blocks(dom)| && Blocks(dom)[BlockIndex(dom, p)] == p
    {
      BlocksBelowPrefix(dom, p + 1, |dom|);
    }
    forall k | 0 <= k < |Blocks(dom)| ensures BlockIndex(dom, Blocks(dom)[k]) == k {
      var p := Blocks(dom)[k];
      BlocksBelowPrefix(dom, p + 1, |dom|);
      var i := BlockIndex(dom, p);
      assert Blocks(dom)[i] == p;
    }
  }

  /** Indices grow with document position. */
  lemma BlockIndexMonotone(dom: seq<DomNode>, p: nat, q: nat)
    requires p < q <= |dom| && IsBlock(dom[p])
    ensures BlockIndex(dom, p) < BlockIndex(dom, q)
  {
    assert BlocksBelow(dom, p + 1) == BlocksBelow(dom, p) + [p];
    BlocksBelowPrefix(dom, p + 1, q);
  }

  /** Documents of the same shape have the same matches. */
  lemma SameShapeBlocks(a: seq<DomNode>, b: seq<DomNode>, n: nat)
    requires SameShape(a, b) && n <= |a|
    ensures BlocksBelow(a, n) == BlocksBelow(b, n)
  {
    if n > 0 {
      assert Shape(a[n - 1]) == Shape(b[n - 1]);
      SameShapeBlocks(a, b, n - 1);
    }
  }

  /** `el.textContent?.trim()` is non-empty. */
  predicate Qualifies(dom: seq<DomNode>, p: nat)
    requires p < |dom|
  {
    Trim(TextContent(dom, p)) != ""
  }

  /** `para-${containerId}-${index}` */
  function ParagraphId(containerId: string, index: nat): string {
    "para-" + containerId + "-" + NatToString(index)
  }

  /** The two attribute writes on a qualifying element. */
  function Tag(n: DomNode, containerId: string, index: nat): DomNode
    requires n.Elem?
  {
    n.(attrs := n.attrs[PARAGRAPH_ID := ParagraphId(containerId, index)][PARAGRAPH_INDEX := NatToString(index)])
  }

  /** The document `extractParagraphs` serialises: every qualifying match tagged with its index. */
  function Annotated(html: seq<DomNode>, containerId: string): (r: seq<DomNode>)
    ensures |r| == |html|
  {
    seq(|html|, p requires 0 <= p < |html| =>
      if IsBlock(html[p]) && Qualifies(html, p) then Tag(html[p], containerId, BlockIndex(html, p))
      else html[p])
  }

  /** The document after `forEach` has visited the matches with an index below `index`. */
  function Visited(html: seq<DomNode>, containerId: string, index: nat): (r: seq<DomNode>)
    ensures |r| == |html|
  {
    seq(|html|, p requires 0 <= p < |html| =>
      if BlockIndex(html, p) < index then Annotated(html, containerId)[p] else html[p])
  }

  lemma VisitedStep(html: seq<DomNode>, containerId: string, index: nat)
    requires index < |Blocks(html)|
    ensures Visited(html, containerId, index + 1)
      == Visited(html, containerId, index)[Blocks(html)[index] := Annotated(html, containerId)[Blocks(html)[index]]]
  {
    BlockIndexes(html);
    var el := Blocks(html)[index];
    var a, b := Visited(html, containerId, index), Visited(html, containerId, index + 1);
    var ann := Annotated(html, containerId);
    forall p | 0 <= p < |html| ensures b[p] == a[el := ann[el]][p] {
      if p == el {
        assert BlockIndex(html, el) == index;
      } else if BlockIndex(html, p) == index {
        assert !IsBlock(html[p]);
        assert ann[p] == html[p];
      }
    }
  }

  /** Visiting only writes attributes, and leaves the matches not yet visited as they were. */
  lemma VisitedShape(html: seq<DomNode>, containerId: string, index: nat)
    ensures SameShape(Visited(html, containerId, index), html)
    ensures index < |Blocks(html)| ==> Visited(html, containerId, index)[Blocks(html)[index]] == html[Blocks(html)[index]]
  {
    BlockIndexes(html);
    var v, a := Visited(html, containerId, index), Annotated(html, containerId);
    forall p | 0 <= p < |html| ensures Shape(v[p]) == Shape(html[p]) {
      assert a[p] == html[p] || a[p] == Tag(html[p], containerId, BlockIndex(html, p));
    }
  }

  lemma VisitedAll(html: seq<DomNode>, containerId: string)
    ensures Visited(html, containerId, |Blocks(html)|) == Annotated(html, containerId)
  {
    BlockIndexes(html);
  }

  /**
   * `extractParagraphs(html, containerId)`: walks the matches of the parsed document in order
   * and writes the two attributes on each one whose trimmed text is non-empty. The parsed
   * document is `html` (see `Dom.ParseBody`); the result is the document `body.innerHTML`
   * serialises.
   */
  method ExtractParagraphs(html: seq<DomNode>, containerId: string) returns (out: seq<DomNode>)
    ensures out == Annotated(html, containerId)
  {
    var doc := new DomNode[|html|](i requires 0 <= i < |html| => html[i]);
    var elements := Blocks(html);
    BlockIndexes(html);
    assert doc[..] == Visited(html, containerId, 0);
    for index := 0 to |elements|
      invariant doc[..] == Visited(html, containerId, index)
    {
      VisitMatch(doc, html, containerId, elements, index);
    }
    VisitedAll(html, containerId);
    out := doc[..];
  }

  /** One `forEach` step: the match at `index` is tagged when its trimmed text is non-empty. */
  method VisitMatch(doc: array<DomNode>, html: seq<DomNode>, containerId: string, elements: seq<nat>, index: nat)
    requires elements == Blocks(html) && index < |elements|
    requires doc[..] == Visited(html, containerId, index)
    modifies doc
    ensures doc[..] == Visited(html, containerId, index + 1)
  {
    var el := elements[index];
    BlockIndexes(html);
    assert el < |html| && IsBlock(html[el]) && BlockIndex(html, el) == index;
    VisitedShape(html, containerId, index);
    SameShapeTextContent(doc[..], html, el);
    assert doc[el] == html[el];
    var text := Trim(TextContent(doc[..], el));
    assert (|text| > 0) == Qualifies(html, el);
    ghost var next := Annotated(html, containerId)[el];
    if |text| > 0 {
      assert next == Tag(html[el], containerId, index);
      doc[el] := Tag(doc[el], containerId, index);
    } else {
      assert next == html[el];
    }
    assert doc[..] == Visited(html, containerId, index)[el := next];
    VisitedStep(html, containerId, index);
  }

  /** The source document carries no paragraph attributes of its own. */
  predicate Clean(html: seq<DomNode>) {
    forall p :: 0 <= p < |html| && html[p].Elem? ==>
      PARAGRAPH_ID !in html[p].attrs && PARAGRAPH_INDEX !in html[p].attrs
  }

  /** Extraction only writes the two paragraph attributes: text, nesting, every other attribute
      and the inline styles are as parsed. */
  lemma AnnotatedKeepsDocument(html: seq<DomNode>, containerId: string)
    ensures SameShape(Annotated(html, containerId), html)
    ensures forall p :: 0 <= p < |html| && html[p].Elem? ==>
      Annotated(html, containerId)[p].style == html[p].style &&
      Annotated(html, containerId)[p].attrs - {PARAGRAPH_ID, PARAGRAPH_INDEX}
        == html[p].attrs - {PARAGRAPH_ID, PARAGRAPH_INDEX}
  {
    var a := Annotated(html, containerId);
    forall p | 0 <= p < |html|
      ensures Shape(a[p]) == Shape(html[p])
      ensures html[p].Elem? ==>
        a[p].style == html[p].style &&
        a[p].attrs - {PARAGRAPH_ID, PARAGRAPH_INDEX} == html[p].attrs - {PARAGRAPH_ID, PARAGRAPH_INDEX}
    {
      if IsBlock(html[p]) && Qualifies(html, p) {
        TagKeeps(html[p], containerId, BlockIndex(html, p));
      }
    }
  }

  lemma TagKeeps(n: DomNode, containerId: string, index: nat)
    requires n.Elem?
    ensures Shape(Tag(n, containerId, index)) == Shape(n)
    ensures Tag(n, containerId, index).style == n.style
    ensures Tag(n, containerId, index).attrs - {PARAGRAPH_ID, PARAGRAPH_INDEX} == n.attrs - {PARAGRAPH_ID, PARAGRAPH_INDEX}
  {
    var m := n.attrs;
    var m' := Tag(n, containerId, index).attrs;
    assert m' - {PARAGRAPH_ID, PARAGRAPH_INDEX} == m - {PARAGRAPH_ID, PARAGRAPH_INDEX};
  }

  /** Extracting an already extracted document changes nothing. */
  lemma AnnotatedIdempotent(html: seq<DomNode>, containerId: string)
    ensures Annotated(Annotated(html, containerId), containerId) == Annotated(html, containerId)
  {
    var a := Annotated(html, containerId);
    AnnotatedKeepsDocument(html, containerId);
    forall p | 0 <= p < |html|
      ensures Annotated(a, containerId)[p] == a[p]
    {
      assert Shape(a[p]) == Shape(html[p]);
      assert IsBlock(a[p]) == IsBlock(html[p]);
      SameShapeBlocks(a, html, p);
      assert BlockIndex(a, p) == BlockIndex(html, p);
      SameShapeTextContent(a, html, p);
      assert Qualifies(a, p) == Qualifies(html, p);
      if IsBlock(html[p]) && Qualifies(html, p) {
        TagTwice(html[p], containerId, BlockIndex(html, p));
      }
    }
  }

  lemma TagTwice(n: DomNode, containerId: string, index: nat)
    requires n.Elem?
    ensures Tag(Tag(n, containerId, index), containerId, index) == Tag(n, containerId, index)
  {
    var m := Tag(n, containerId, index).attrs;
    assert m[PARAGRAPH_ID := ParagraphId(containerId, index)][PARAGRAPH_INDEX := NatToString(index)] == m;
  }

  lemma TrimHi()
    ensures Trim("Hi") == "Hi"
  {
    assert !IsWhitespace('H') && !IsWhitespace('i');
    assert TrimStart("Hi") == "Hi";
    assert TrimEnd("Hi") == "Hi";
  }

  lemma TagAttrs(n: DomNode, containerId: string, index: nat)
    requires n.Elem? && n.attrs == map[]
    ensures Tag(n, containerId, index).attrs
      == map[PARAGRAPH_ID := ParagraphId(containerId, index), PARAGRAPH_INDEX := NatToString(index)]
  {
  }

  /** `<div></div><p>Hi</p>` */
  const GAP_EXAMPLE: seq<DomNode> :=
    [Elem("div", map[], EmptyStyle, 1), Elem("p", map[], EmptyStyle, 3), TextNode("Hi")]

  /** `<div><p>Hi</p></div>` */
  const NESTED_EXAMPLE: seq<DomNode> :=
    [Elem("div", map[], EmptyStyle, 3), Elem("p", map[], EmptyStyle, 3), TextNode("Hi")]

  lemma GapFacts()
    ensures IsBlock(GAP_EXAMPLE[0]) && !Qualifies(GAP_EXAMPLE, 0)
    ensures IsBlock(GAP_EXAMPLE[1]) && Qualifies(GAP_EXAMPLE, 1) && BlockIndex(GAP_EXAMPLE, 1) == 1
  {
    ExampleTags();
    GapTexts();
    TrimHi();
    TrimNothing();
    assert BlocksBelow(GAP_EXAMPLE, 1) == BlocksBelow(GAP_EXAMPLE, 0) + [0];
  }

  lemma NestedFacts()
    ensures IsBlock(NESTED_EXAMPLE[0]) && Qualifies(NESTED_EXAMPLE, 0) && BlockIndex(NESTED_EXAMPLE, 0) == 0
    ensures IsBlock(NESTED_EXAMPLE[1]) && Qualifies(NESTED_EXAMPLE, 1) && BlockIndex(NESTED_EXAMPLE, 1) == 1
  {
    ExampleTags();
    NestedTexts();
    TrimHi();
    assert BlocksBelow(NESTED_EXAMPLE, 1) == BlocksBelow(NESTED_EXAMPLE, 0) + [0];
  }

  lemma ExampleTags()
    ensures "p" in BLOCK_TAGS && "div" in BLOCK_TAGS
  {
    assert BLOCK_TAGS[0] == "p" && BLOCK_TAGS[7] == "div";
  }

  lemma TrimNothing()
    ensures Trim("") == ""
  {
    assert IsBlank("");
  }

  lemma GapTexts()
    ensures TextContent(GAP_EXAMPLE, 0) == "" && TextContent(GAP_EXAMPLE, 1) == "Hi"
  {
    var html := GAP_EXAMPLE;
    assert SubtreeEnd(html, 0) == 1 && SubtreeEnd(html, 1) == 3;
    assert Texts(html, 3, 3) == "";
    assert Texts(html, 2, 3) == "Hi";
  }

  lemma NestedTexts()
    ensures TextContent(NESTED_EXAMPLE, 0) == "Hi" && TextContent(NESTED_EXAMPLE, 1) == "Hi"
  {
    var html := NESTED_EXAMPLE;
    assert SubtreeEnd(html, 0) == 3 && SubtreeEnd(html, 1) == 3;
    assert Texts(html, 3, 3) == "";
    assert Texts(html, 2, 3) == "Hi";
    assert Texts(html, 1, 3) == "Hi";
  }

  lemma SmallIds()
    ensures NatToString(0) == "0" && NatToString(1) == "1"
    ensures ParagraphId("c", 0) == "para-c-0" && ParagraphId("c", 1) == "para-c-1"
  {
    assert NatToString(0) == "0" && NatToString(1) == "1";
  }

  /** An empty match still takes an index: the paragraph after it is numbered 1, not 0. */
  lemma IndexSkipsEmptyMatch()
    ensures Annotated(GAP_EXAMPLE, "c")[0] == GAP_EXAMPLE[0]
    ensures Annotated(GAP_EXAMPLE, "c")[1].attrs == map[PARAGRAPH_ID := "para-c-1", PARAGRAPH_INDEX := "1"]
  {
    GapFacts();
    SmallIds();
    var a := Annotated(GAP_EXAMPLE, "c");
    assert a[1] == Tag(GAP_EXAMPLE[1], "c", 1);
    TagAttrs(GAP_EXAMPLE[1], "c", 1);
  }

  /** A match nested in another match is a paragraph of its own: both are tagged. */
  lemma NestedMatchesBothTagged()
    ensures Annotated(NESTED_EXAMPLE, "c")[0].attrs == map[PARAGRAPH_ID := "para-c-0", PARAGRAPH_INDEX := "0"]
    ensures Annotated(NESTED_EXAMPLE, "c")[1].attrs == map[PARAGRAPH_ID := "para-c-1", PARAGRAPH_INDEX := "1"]
  {
    NestedFacts();
    SmallIds();
    var a := Annotated(NESTED_EXAMPLE, "c");
    assert a[0] == Tag(NESTED_EXAMPLE[0], "c", 0);
    assert a[1] == Tag(NESTED_EXAMPLE[1], "c", 1);
    TagAttrs(NESTED_EXAMPLE[0], "c", 0);
    TagAttrs(NESTED_EXAMPLE[1], "c", 1);
  }

  // ---------------------------------------------------------------------------------------
  // getParagraphs
  // ---------------------------------------------------------------------------------------

  /** A paragraph found in a pane; `index` is `None` where `parseInt` gives `NaN`. */
  datatype Paragraph = Paragraph(id: string, element: nat, index: Option<int>)

  /** Matched by `[data-paragraph-id]` and both attributes are non-empty strings. */
  predicate IsTagged(n: DomNode) {
    n.Elem? && PARAGRAPH_ID in n.attrs && n.attrs[PARAGRAPH_ID] != "" &&
    PARAGRAPH_INDEX in n.attrs && n.attrs[PARAGRAPH_INDEX] != ""
  }

  function ParagraphOf(dom: seq<DomNode>, p: nat): Paragraph
    requires p < |dom| && IsTagged(dom[p])
  {
    Paragraph(dom[p].attrs[PARAGRAPH_ID], p, ParseInt(dom[p].attrs[PARAGRAPH_INDEX]))
  }

  function ElementsOf(ps: seq<Paragraph>): (r: seq<nat>)
    ensures |r| == |ps| && forall i :: 0 <= i < |ps| ==> r[i] == ps[i].element
  {
    seq(|ps|, i requires 0 <= i < |ps| => ps[i].element)
  }

  /** The paragraphs pushed while visiting the nodes below `n`, in document order. */
  function TaggedBelow(dom: seq<DomNode>, n: nat): (r: seq<Paragraph>)
    requires n <= |dom|
    ensures forall i :: 0 <= i < |r| ==> r[i].element < n && IsTagged(dom[r[i].element])
    ensures forall i, j :: 0 <= i < j < |r| ==> r[i].element < r[j].element
  {
    if n == 0 then []
    else TaggedBelow(dom, n - 1) + (if IsTagged(dom[n - 1]) then [ParagraphOf(dom, n - 1)] else [])
  }

  /** Each paragraph pushed reads its id and index off its element's attributes. */
  lemma {:induction false} TaggedBelowReads(dom: seq<DomNode>, n: nat, i: nat)
    requires n <= |dom| && i < |TaggedBelow(dom, n)|
    ensures TaggedBelow(dom, n)[i] == ParagraphOf(dom, TaggedBelow(dom, n)[i].element)
  {
    var r := TaggedBelow(dom, n - 1);
    if i < |r| {
      TaggedBelowReads(dom, n - 1, i);
      assert TaggedBelow(dom, n)[i] == r[i];
    }
  }

  /** No tagged element below `n` is skipped. */
  lemma {:induction false} TaggedBelowComplete(dom: seq<DomNode>, n: nat, p: nat)
    requires p < n <= |dom| && IsTagged(dom[p])
    ensures p in ElementsOf(TaggedBelow(dom, n))
  {
    var r := TaggedBelow(dom, n - 1);
    if p < n - 1 {
      TaggedBelowComplete(dom, n - 1, p);
    }
    if IsTagged(dom[n - 1]) {
      var q := ParagraphOf(dom, n - 1);
      assert TaggedBelow(dom, n) == r + [q];
      ElementsOfSnoc(r, q);
      assert ElementsOf(r + [q])[|r|] == n - 1;
    } else {
      assert TaggedBelow(dom, n) == r;
    }
  }

  lemma ElementsOfSnoc(r: seq<Paragraph>, q: Paragraph)
    ensures ElementsOf(r + [q]) == ElementsOf(r) + [q.element]
  {
    assert ElementsOf(r + [q])[|r|] == q.element;
  }

  function TaggedIn(dom: seq<DomNode>): seq<Paragraph> {
    TaggedBelow(dom, |dom|)
  }

  /** Every tagged element's index attribute is a number. */
  predicate IndicesParse(dom: seq<DomNode>) {
    forall p :: 0 <= p < |dom| && IsTagged(dom[p]) ==> ParseInt(dom[p].attrs[PARAGRAPH_INDEX]).Some?
  }

  function IndexKey(q: Paragraph): int {
    q.index.GetOr(0)
  }

  /**
   * `getParagraphs(container)`: the tagged elements sorted by index. The sort is stable, so
   * elements with equal indices keep document order. When some index is `NaN` the comparator
   * is inconsistent and the order is up to the engine; the model then keeps document order.
   */
  function Paragraphs(dom: seq<DomNode>): (r: seq<Paragraph>)
    ensures multiset(r) == multiset(TaggedIn(dom))
    ensures IndicesParse(dom) ==> SortedByKey(r, IndexKey)
  {
    if IndicesParse(dom) then
      SortByKeySorted(TaggedIn(dom), IndexKey);
      SortByKeyPermutes(TaggedIn(dom), IndexKey);
      SortByKey(TaggedIn(dom), IndexKey)
    else TaggedIn(dom)
  }

  /** `getParagraphs(container)`: one pass over the pane pushing each tagged element, then the sort. */
  method GetParagraphs(c: Container) returns (ps: seq<Paragraph>)
    ensures ps == Paragraphs(c.nodes)
  {
    var dom := c.nodes;
    var paragraphs: seq<Paragraph> := [];
    for p := 0 to |dom|
      invariant paragraphs == TaggedBelow(dom, p)
    {
      if IsTagged(dom[p]) {
        paragraphs := paragraphs + [ParagraphOf(dom, p)];
      }
    }
    if IndicesParse(dom) {
      ps := SortByKey(paragraphs, IndexKey);
    } else {
      ps := paragraphs;
    }
  }

  /** The paragraphs of a pane are exactly its tagged elements, each once, read off its attributes. */
  lemma ParagraphsAreTagged(dom: seq<DomNode>)
    ensures forall i :: 0 <= i < |Paragraphs(dom)| ==>
      var q := Paragraphs(dom)[i]; q.element < |dom| && IsTagged(dom[q.element]) && q == ParagraphOf(dom, q.element)
    ensures forall p :: p in ElementsOf(Paragraphs(dom)) <==> 0 <= p < |dom| && IsTagged(dom[p])
  {
    var ps := Paragraphs(dom);
    forall i | 0 <= i < |ps|
      ensures ps[i].element < |dom| && IsTagged(dom[ps[i].element]) && ps[i] == ParagraphOf(dom, ps[i].element)
    {
      ParagraphReads(dom, ps, i);
    }
    forall p ensures p in ElementsOf(ps) <==> 0 <= p < |dom| && IsTagged(dom[p]) {
      if 0 <= p < |dom| && IsTagged(dom[p]) {
        ParagraphFound(dom, ps, p);
      }
    }
  }

  lemma ParagraphReads(dom: seq<DomNode>, ps: seq<Paragraph>, i: nat)
    requires ps == Paragraphs(dom) && i < |ps|
    ensures ps[i].element < |dom| && IsTagged(dom[ps[i].element]) && ps[i] == ParagraphOf(dom, ps[i].element)
  {
    var ts := TaggedIn(dom);
    assert ps[i] in multiset(ts);
    var k :| 0 <= k < |ts| && ts[k] == ps[i];
    TaggedBelowReads(dom, |dom|, k);
  }

  lemma ParagraphFound(dom: seq<DomNode>, ps: seq<Paragraph>, p: nat)
    requires ps == Paragraphs(dom) && p < |dom| && IsTagged(dom[p])
    ensures p in ElementsOf(ps)
  {
    var ts := TaggedIn(dom);
    TaggedBelowComplete(dom, |dom|, p);
    var i :| 0 <= i < |ts| && ElementsOf(ts)[i] == p;
    assert ts[i] in multiset(ps);
    var j :| 0 <= j < |ps| && ps[j] == ts[i];
    assert ElementsOf(ps)[j] == p;
  }


  /** On a document without paragraph attributes of its own, the tagged elements after
      extraction are exactly the qualifying matches, and they read back their id and index. */
  lemma TaggedAfterExtract(html: seq<DomNode>, containerId: string, p: nat)
    requires Clean(html) && p < |html|
    ensures IsTagged(Annotated(html, containerId)[p]) <==> IsBlock(html[p]) && Qualifies(html, p)
    ensures IsTagged(Annotated(html, containerId)[p]) ==>
      ParagraphOf(Annotated(html, containerId), p)
        == Paragraph(ParagraphId(containerId, BlockIndex(html, p)), p, Some(BlockIndex(html, p) as int))
  {
    var a := Annotated(html, containerId);
    if IsBlock(html[p]) && Qualifies(html, p) {
      var k := BlockIndex(html, p);
      assert a[p] == Tag(html[p], containerId, k);
      assert a[p].attrs[PARAGRAPH_INDEX] == NatToString(k);
      assert a[p].attrs[PARAGRAPH_ID] == ParagraphId(containerId, k);
      ParseNatToString(k);
    } else {
      assert a[p] == html[p];
    }
  }

  /** Extraction followed by getParagraphs, on a document without paragraph attributes of its own:
      one paragraph per qualifying match, in document order, carrying that match's id and index. */
  lemma ExtractThenGetParagraphs(html: seq<DomNode>, containerId: string)
    requires Clean(html)
    ensures IndicesParse(Annotated(html, containerId))
    ensures Paragraphs(Annotated(html, containerId)) == TaggedIn(Annotated(html, containerId))
    ensures forall i :: 0 <= i < |Paragraphs(Annotated(html, containerId))| ==>
      var q := Paragraphs(Annotated(html, containerId))[i];
      q.element < |html| && IsBlock(html[q.element]) && Qualifies(html, q.element) &&
      q.id == ParagraphId(containerId, BlockIndex(html, q.element)) &&
      q.index == Some(BlockIndex(html, q.element) as int)
    ensures forall p :: 0 <= p < |html| && IsBlock(html[p]) && Qualifies(html, p) ==>
      p in ElementsOf(Paragraphs(Annotated(html, containerId)))
  {
    var a := Annotated(html, containerId);
    var ts := TaggedIn(a);
    ExtractedInOrder(html, containerId, a, ts);
    forall i | 0 <= i < |ts|
      ensures ts[i].element < |html| && IsBlock(html[ts[i].element]) && Qualifies(html, ts[i].element)
      ensures ts[i].id == ParagraphId(containerId, BlockIndex(html, ts[i].element))
      ensures ts[i].index == Some(BlockIndex(html, ts[i].element) as int)
    {
      ExtractedParagraph(html, containerId, ts, i);
    }
    forall p | 0 <= p < |html| && IsBlock(html[p]) && Qualifies(html, p) ensures p in ElementsOf(ts) {
      TaggedAfterExtract(html, containerId, p);
      TaggedBelowComplete(a, |a|, p);
    }
  }

  lemma ExtractedIndicesParse(html: seq<DomNode>, containerId: string, a: seq<DomNode>)
    requires Clean(html) && a == Annotated(html, containerId)
    ensures IndicesParse(a)
  {
    forall p | 0 <= p < |a| && IsTagged(a[p]) ensures ParseInt(a[p].attrs[PARAGRAPH_INDEX]).Some? {
      TaggedAfterExtract(html, containerId, p);
    }
  }

  /** After extraction every index parses and the sort leaves document order in place. */
  lemma ExtractedInOrder(html: seq<DomNode>, containerId: string, a: seq<DomNode>, ts: seq<Paragraph>)
    requires Clean(html) && a == Annotated(html, containerId) && ts == TaggedIn(a)
    ensures IndicesParse(a) && Paragraphs(a) == ts
  {
    ExtractedIndicesParse(html, containerId, a);
    ExtractedSorted(html, containerId, ts);
    SortByKeyOfSorted(ts, IndexKey);
  }

  lemma ExtractedSorted(html: seq<DomNode>, containerId: string, ts: seq<Paragraph>)
    requires Clean(html) && ts == TaggedIn(Annotated(html, containerId))
    ensures SortedByKey(ts, IndexKey)
  {
    forall i, j | 0 <= i < j < |ts| ensures IndexKey(ts[i]) <= IndexKey(ts[j]) {
      ExtractedParagraph(html, containerId, ts, i);
      ExtractedParagraph(html, containerId, ts, j);
      BlockIndexMonotone(html, ts[i].element, ts[j].element);
    }
  }

  /** The paragraph at `i` after extraction is a qualifying match carrying its own id and index. */
  lemma ExtractedParagraph(html: seq<DomNode>, containerId: string, ts: seq<Paragraph>, i: nat)
    requires Clean(html) && ts == TaggedIn(Annotated(html, containerId)) && i < |ts|
    ensures ts[i].element < |html| && IsBlock(html[ts[i].element]) && Qualifies(html, ts[i].element)
    ensures ts[i].id == ParagraphId(containerId, BlockIndex(html, ts[i].element))
    ensures ts[i].index == Some(BlockIndex(html, ts[i].element) as int)
  {
    TaggedBelowReads(Annotated(html, containerId), |html|, i);
    TaggedAfterExtract(html, containerId, ts[i].element);
  }


  // ---------------------------------------------------------------------------------------
  // findParagraphById, findParagraphByIndex
  // ---------------------------------------------------------------------------------------

  predicate HasAttr(n: DomNode, key: string, value: string) {
    n.Elem? && key in n.attrs && n.attrs[key] == value
  }

  /** `querySelector([key="value"])` over the positions from `lo` on: the first match. */
  function FirstWith(dom: seq<DomNode>, key: string, value: string, lo: nat): (r: Option<nat>)
    requires lo <= |dom|
    ensures r.Some? ==>
      lo <= r.value < |dom| && HasAttr(dom[r.value], key, value) &&
      forall q :: lo <= q < r.value ==> !HasAttr(dom[q], key, value)
    ensures r.None? ==> forall q :: lo <= q < |dom| ==> !HasAttr(dom[q], key, value)
    decreases |dom| - lo
  {
    if lo == |dom| then None
    else if HasAttr(dom[lo], key, value) then Some(lo)
    else FirstWith(dom, key, value, lo + 1)
  }

  /** `findParagraphById(container, paragraphId)` */
  function FindParagraphById(dom: seq<DomNode>, paragraphId: string): (r: Option<nat>)
    ensures r.Some? ==>
      r.value < |dom| && HasAttr(dom[r.value], PARAGRAPH_ID, paragraphId) &&
      forall q :: 0 <= q < r.value ==> !HasAttr(dom[q], PARAGRAPH_ID, paragraphId)
    ensures r.None? <==> forall q :: 0 <= q < |dom| ==> !HasAttr(dom[q], PARAGRAPH_ID, paragraphId)
  {
    FirstWith(dom, PARAGRAPH_ID, paragraphId, 0)
  }

  /** `findParagraphByIndex(container, index)`: the number is written out as a string. */
  function FindParagraphByIndex(dom: seq<DomNode>, index: int): (r: Option<nat>)
    ensures r.Some? ==>
      r.value < |dom| && HasAttr(dom[r.value], PARAGRAPH_INDEX, IntToString(index)) &&
      forall q :: 0 <= q < r.value ==> !HasAttr(dom[q], PARAGRAPH_INDEX, IntToString(index))
    ensures r.None? <==> forall q :: 0 <= q < |dom| ==> !HasAttr(dom[q], PARAGRAPH_INDEX, IntToString(index))
  {
    FirstWith(dom, PARAGRAPH_INDEX, IntToString(index), 0)
  }

  lemma FirstWithUnique(dom: seq<DomNode>, key: string, value: string, p: nat)
    requires p < |dom| && HasAttr(dom[p], key, value)
    requires forall q :: 0 <= q < |dom| && q != p ==> !HasAttr(dom[q], key, value)
    ensures FirstWith(dom, key, value, 0) == Some(p)
  {
  }

  lemma ParagraphIdInjective(containerId: string, i: nat, j: nat)
    requires ParagraphId(containerId, i) == ParagraphId(containerId, j)
    ensures i == j
  {
    var pre := "para-" + containerId + "-";
    assert ParagraphId(containerId, i)[|pre|..] == NatToString(i);
    assert ParagraphId(containerId, j)[|pre|..] == NatToString(j);
    NatToStringInjective(i, j);
  }

  /** No other position of the extracted document carries the id or index of match `p`. */
  lemma OtherNotTaggedLike(html: seq<DomNode>, containerId: string, p: nat, q: nat, k: nat)
    requires Clean(html) && p < |html| && q < |html| && q != p && IsBlock(html[p]) && k == BlockIndex(html, p)
    ensures !HasAttr(Annotated(html, containerId)[q], PARAGRAPH_ID, ParagraphId(containerId, k))
    ensures !HasAttr(Annotated(html, containerId)[q], PARAGRAPH_INDEX, NatToString(k))
  {
    var a := Annotated(html, containerId);
    if IsBlock(html[q]) && Qualifies(html, q) {
      var kq := BlockIndex(html, q);
      if q < p { BlockIndexMonotone(html, q, p); } else { BlockIndexMonotone(html, p, q); }
      assert a[q] == Tag(html[q], containerId, kq);
      if ParagraphId(containerId, kq) == ParagraphId(containerId, k) {
        ParagraphIdInjective(containerId, kq, k);
      }
      if NatToString(kq) == NatToString(k) {
        NatToStringInjective(kq, k);
      }
    } else {
      assert a[q] == html[q];
      assert html[q].Elem? ==> PARAGRAPH_ID !in html[q].attrs && PARAGRAPH_INDEX !in html[q].attrs;
    }
  }

  /** After extraction of a document without paragraph attributes, each paragraph is found again
      by its id and by its index. */
  lemma FindAfterExtract(html: seq<DomNode>, containerId: string, p: nat)
    requires Clean(html) && p < |html| && IsBlock(html[p]) && Qualifies(html, p)
    ensures FindParagraphById(Annotated(html, containerId), ParagraphId(containerId, BlockIndex(html, p))) == Some(p)
    ensures FindParagraphByIndex(Annotated(html, containerId), BlockIndex(html, p)) == Some(p)
  {
    var a := Annotated(html, containerId);
    var k := BlockIndex(html, p);
    BlockIndexes(html);
    assert a[p] == Tag(html[p], containerId, k);
    forall q | 0 <= q < |a| && q != p
      ensures !HasAttr(a[q], PARAGRAPH_ID, ParagraphId(containerId, k))
      ensures !HasAttr(a[q], PARAGRAPH_INDEX, NatToString(k))
    {
      OtherNotTaggedLike(html, containerId, p, q, k);
    }
    FirstWithUnique(a, PARAGRAPH_ID, ParagraphId(containerId, k), p);
    FirstWithUnique(a, PARAGRAPH_INDEX, NatToString(k), p);
  }

  // ---------------------------------------------------------------------------------------
  // getParagraphAtScrollPosition
  // ---------------------------------------------------------------------------------------

  /** The paragraph's top, in the pane's scroll coordinates, lies at most 50 pixels below
      `scrollTop` and its bottom is not above it. */
  predicate InView(r: Rect, containerTop: real, containerScrollTop: real, scrollTop: real) {
    var relativeTop := r.top - containerTop + containerScrollTop;
    relativeTop <= scrollTop + 50.0 && relativeTop + r.height >= scrollTop
  }

  /** `Math.abs(rect.top - containerRect.top)` */
  function Distance(r: Rect, containerTop: real): (d: real)
    ensures d >= 0.0 && (d == r.top - containerTop || d == containerTop - r.top)
  {
    if r.top >= containerTop then r.top - containerTop else containerTop - r.top
  }

  /** The first paragraph from `lo` on that is in view. */
  function FirstInView(ps: seq<Paragraph>, layout: nat -> Rect, containerTop: real,
                       containerScrollTop: real, scrollTop: real, lo: nat): (r: Option<nat>)
    requires lo <= |ps|
    ensures r.Some? ==>
      lo <= r.value < |ps| && InView(layout(ps[r.value].element), containerTop, containerScrollTop, scrollTop) &&
      forall i :: lo <= i < r.value ==> !InView(layout(ps[i].element), containerTop, containerScrollTop, scrollTop)
    ensures r.None? ==>
      forall i :: lo <= i < |ps| ==> !InView(layout(ps[i].element), containerTop, containerScrollTop, scrollTop)
    decreases |ps| - lo
  {
    if lo == |ps| then None
    else if InView(layout(ps[lo].element), containerTop, containerScrollTop, scrollTop) then Some(lo)
    else FirstInView(ps, layout, containerTop, containerScrollTop, scrollTop, lo + 1)
  }

  /** Among the first `n` paragraphs, the first one whose top is nearest the pane's top. */
  function Closest(ps: seq<Paragraph>, layout: nat -> Rect, containerTop: real, n: nat): (r: nat)
    requires 0 < n <= |ps|
    ensures r < n
    ensures forall i :: 0 <= i < n ==>
      Distance(layout(ps[r].element), containerTop) <= Distance(layout(ps[i].element), containerTop)
    ensures forall i :: 0 <= i < r ==>
      Distance(layout(ps[i].element), containerTop) > Distance(layout(ps[r].element), containerTop)
  {
    if n == 1 then 0
    else
      var c := Closest(ps, layout, containerTop, n - 1);
      if Distance(layout(ps[n - 1].element), containerTop) < Distance(layout(ps[c].element), containerTop)
      then n - 1 else c
  }

  /** The pick among the paragraphs `ps`: the first one in view, else the nearest one. */
  function ScrollPick(ps: seq<Paragraph>, layout: nat -> Rect, containerTop: real,
                      containerScrollTop: real, scrollTop: real): (r: Option<nat>)
    ensures r.None? <==> ps == []
    ensures r.Some? ==> r.value < |ps|
  {
    match FirstInView(ps, layout, containerTop, containerScrollTop, scrollTop, 0)
    case Some(i) => Some(i)
    case None => if ps == [] then None else Some(Closest(ps, layout, containerTop, |ps|))
  }

  /** What `getParagraphAtScrollPosition` finds. */
  function AtScrollPosition(dom: seq<DomNode>, layout: nat -> Rect, containerTop: real,
                            containerScrollTop: real, scrollTop: real): (r: Option<Paragraph>)
    ensures r.None? <==> Paragraphs(dom) == []
    ensures r.Some? ==> r.value in Paragraphs(dom)
  {
    var ps := Paragraphs(dom);
    match ScrollPick(ps, layout, containerTop, containerScrollTop, scrollTop)
    case Some(i) => Some(ps[i])
    case None => None
  }

  /** `getParagraphAtScrollPosition(container, scrollTop)` */
  method GetParagraphAtScrollPosition(c: Container, scrollTop: real) returns (r: Option<Paragraph>)
    ensures r == AtScrollPosition(c.nodes, c.layout, c.top, c.scrollTop, scrollTop)
  {
    var paragraphs := GetParagraphs(c);
    var layout, containerTop, containerScrollTop := c.layout, c.top, c.scrollTop;
    ghost var pick := ScrollPick(paragraphs, layout, containerTop, containerScrollTop, scrollTop);
    assert AtScrollPosition(c.nodes, layout, containerTop, containerScrollTop, scrollTop)
      == if pick.Some? then Some(paragraphs[pick.value]) else None;
    for i := 0 to |paragraphs|
      invariant FirstInView(paragraphs, layout, containerTop, containerScrollTop, scrollTop, i)
        == FirstInView(paragraphs, layout, containerTop, containerScrollTop, scrollTop, 0)
    {
      var rect := layout(paragraphs[i].element);
      var relativeTop := rect.top - containerTop + containerScrollTop;
      if relativeTop <= scrollTop + 50.0 && relativeTop + rect.height >= scrollTop {
        assert FirstInView(paragraphs, layout, containerTop, containerScrollTop, scrollTop, i) == Some(i);
        return Some(paragraphs[i]);
      }
    }
    assert FirstInView(paragraphs, layout, containerTop, containerScrollTop, scrollTop, 0) == None;
    if |paragraphs| > 0 {
      var closest := NearestParagraph(paragraphs, layout, containerTop);
      return Some(paragraphs[closest]);
    }
    return None;
  }

  /** The fallback loop of `getParagraphAtScrollPosition`: a strict `<` keeps the first of
      several equally near paragraphs. */
  method NearestParagraph(paragraphs: seq<Paragraph>, layout: nat -> Rect, containerTop: real)
    returns (closest: nat)
    requires |paragraphs| > 0
    ensures closest == Closest(paragraphs, layout, containerTop, |paragraphs|)
  {
    closest := 0;
    var minDistance := Distance(layout(paragraphs[0].element), containerTop);
    for i := 0 to |paragraphs|
      invariant closest == Closest(paragraphs, layout, containerTop, if i == 0 then 1 else i)
      invariant minDistance == Distance(layout(paragraphs[closest].element), containerTop)
    {
      var distance := Distance(layout(paragraphs[i].element), containerTop);
      if distance < minDistance {
        minDistance := distance;
        closest := i;
      }
    }
  }

  // ---------------------------------------------------------------------------------------
  // Inline styles
  // ---------------------------------------------------------------------------------------

  /** A highlight is visible: a background, a left border or a left padding is set. */
  predicate HasHighlight(s: Style) {
    s.backgroundColor != "" || s.borderLeft != "" || s.paddingLeft != ""
  }

  /** A completion mark is visible: opacity, decoration or color is set. */
  predicate HasCompletionMark(s: Style) {
    s.opacity != "" || s.textDecoration != "" || s.color != ""
  }

  predicate SameHighlight(a: Style, b: Style) {
    a.backgroundColor == b.backgroundColor && a.transition == b.transition &&
    a.borderLeft == b.borderLeft && a.paddingLeft == b.paddingLeft
  }

  predicate SameCompletion(a: Style, b: Style) {
    a.opacity == b.opacity && a.textDecoration == b.textDecoration && a.color == b.color
  }

  /** The style `highlightParagraph(element, isHighlighted)` leaves. Switching the highlight off
      keeps the transition. */
  function Highlighted(s: Style, isHighlighted: bool): (r: Style)
    ensures HasHighlight(r) == isHighlighted
    ensures SameCompletion(r, s)
    ensures isHighlighted ==>
      r.backgroundColor == HIGHLIGHT_BACKGROUND && r.transition == HIGHLIGHT_TRANSITION &&
      r.borderLeft == HIGHLIGHT_BORDER && r.paddingLeft == HIGHLIGHT_PADDING
    ensures !isHighlighted ==> r.transition == s.transition
  {
    if isHighlighted then
      s.(backgroundColor := HIGHLIGHT_BACKGROUND, transition := HIGHLIGHT_TRANSITION,
         borderLeft := HIGHLIGHT_BORDER, paddingLeft := HIGHLIGHT_PADDING)
    else s.(backgroundColor := "", borderLeft := "", paddingLeft := "")
  }

  /** The style `markParagraphComplete(element, isComplete)` leaves. */
  function Completed(s: Style, isComplete: bool): (r: Style)
    ensures HasCompletionMark(r) == isComplete
    ensures SameHighlight(r, s)
    ensures isComplete ==>
      r.opacity == COMPLETE_OPACITY && r.textDecoration == COMPLETE_DECORATION && r.color == SECONDARY_TEXT
  {
    if isComplete then s.(opacity := COMPLETE_OPACITY, textDecoration := COMPLETE_DECORATION, color := SECONDARY_TEXT)
    else s.(opacity := "", textDecoration := "", color := "")
  }

  /** Setting a highlight or a completion mark twice is the same as setting it once, and the
      last setting wins. */
  lemma StyleSettingsOverwrite(s: Style, a: bool, b: bool)
    ensures Highlighted(Highlighted(s, a), b) == Highlighted(s, b) || (a && !b)
    ensures a && !b ==> Highlighted(Highlighted(s, a), b) == Highlighted(s, b).(transition := HIGHLIGHT_TRANSITION)
    ensures Completed(Completed(s, a), b) == Completed(s, b)
    ensures Completed(Highlighted(s, a), b) == Highlighted(Completed(s, b), a)
  {
  }

  function WithStyle(n: DomNode, s: Style): DomNode {
    if n.Elem? then n.(style := s) else n
  }

  /** The node with its inline style (if it is an element) replaced by `restyle` of it. */
  function Restyled(n: DomNode, restyle: Style -> Style): (r: DomNode)
    ensures Unstyled(r) == Unstyled(n)
  {
    match n
    case Elem(_, _, style, _) => n.(style := restyle(style))
    case TextNode(_) => n
  }

  /** `highlightParagraph(element, isHighlighted)` */
  method HighlightParagraph(c: Container, element: nat, isHighlighted: bool)
    requires element < |c.nodes| && c.nodes[element].Elem?
    modifies c`nodes
    ensures c.nodes == old(c.nodes)[element := WithStyle(old(c.nodes)[element], Highlighted(old(c.nodes)[element].style, isHighlighted))]
  {
    var el := c.nodes[element];
    var style := el.style;
    if isHighlighted {
      style := style.(backgroundColor := HIGHLIGHT_BACKGROUND);
      style := style.(transition := HIGHLIGHT_TRANSITION);
      style := style.(borderLeft := HIGHLIGHT_BORDER);
      style := style.(paddingLeft := HIGHLIGHT_PADDING);
    } else {
      style := style.(backgroundColor := "");
      style := style.(borderLeft := "");
      style := style.(paddingLeft := "");
    }
    c.nodes := c.nodes[element := el.(style := style)];
  }

  /** `markParagraphComplete(element, isComplete)` */
  method MarkParagraphComplete(c: Container, element: nat, isComplete: bool)
    requires element < |c.nodes| && c.nodes[element].Elem?
    modifies c`nodes
    ensures c.nodes == old(c.nodes)[element := WithStyle(old(c.nodes)[element], Completed(old(c.nodes)[element].style, isComplete))]
  {
    var el := c.nodes[element];
    var style := el.style;
    if isComplete {
      style := style.(opacity := COMPLETE_OPACITY);
      style := style.(textDecoration := COMPLETE_DECORATION);
      style := style.(color := SECONDARY_TEXT);
    } else {
      style := style.(opacity := "");
      style := style.(textDecoration := "");
      style := style.(color := "");
    }
    c.nodes := c.nodes[element := el.(style := style)];
  }

  /** The pane after every tagged element has had its inline style replaced by `restyle`. */
  function RestyleTagged(dom: seq<DomNode>, restyle: Style -> Style): (r: seq<DomNode>)
    ensures SameButStyle(r, dom)
    ensures forall p :: 0 <= p < |dom| && IsTagged(dom[p]) ==> r[p].style == restyle(dom[p].style)
    ensures forall p :: 0 <= p < |dom| && !IsTagged(dom[p]) ==> r[p] == dom[p]
  {
    seq(|dom|, p requires 0 <= p < |dom| => if IsTagged(dom[p]) then Restyled(dom[p], restyle) else dom[p])
  }

  /** The pane after the elements at `els` have had their inline style replaced by `restyle`. */
  function RestyleAt(dom: seq<DomNode>, els: seq<nat>, restyle: Style -> Style): (r: seq<DomNode>)
    ensures |r| == |dom|
  {
    seq(|dom|, p requires 0 <= p < |dom| => if p in els then Restyled(dom[p], restyle) else dom[p])
  }

  lemma RestyleAtStep(dom: seq<DomNode>, els: seq<nat>, e: nat, restyle: Style -> Style)
    requires e < |dom|
    requires Idempotent(restyle)
    ensures RestyleAt(dom, els + [e], restyle)
      == RestyleAt(dom, els, restyle)[e := Restyled(RestyleAt(dom, els, restyle)[e], restyle)]
  {
    var a, b := RestyleAt(dom, els, restyle), RestyleAt(dom, els + [e], restyle);
    forall p | 0 <= p < |dom| ensures b[p] == a[e := Restyled(a[e], restyle)][p] {
      if p == e && e in els && dom[e].Elem? {
        assert restyle(restyle(dom[e].style)) == restyle(dom[e].style);
      }
    }
  }

  ghost predicate Idempotent(restyle: Style -> Style) {
    forall s :: restyle(restyle(s)) == restyle(s)
  }

  /** `paragraphs.forEach(para => para.element.style.… = …)` over the elements `els`. */
  method RestyleElements(c: Container, els: seq<nat>, restyle: Style -> Style)
    requires forall i :: 0 <= i < |els| ==> els[i] < |c.nodes|
    requires Idempotent(restyle)
    modifies c`nodes
    ensures c.nodes == RestyleAt(old(c.nodes), els, restyle)
  {
    ghost var before := c.nodes;
    assert before == RestyleAt(before, [], restyle);
    for i := 0 to |els|
      invariant c.nodes == RestyleAt(before, els[..i], restyle)
    {
      var el := els[i];
      c.nodes := c.nodes[el := Restyled(c.nodes[el], restyle)];
      RestyleAtStep(before, els[..i], el, restyle);
      assert els[..i + 1] == els[..i] + [el];
    }
    assert els[..|els|] == els;
  }

  /** Restyling the elements of a pane's paragraphs is restyling its tagged elements. */
  lemma RestyleParagraphs(dom: seq<DomNode>, restyle: Style -> Style)
    ensures RestyleAt(dom, ElementsOf(Paragraphs(dom)), restyle) == RestyleTagged(dom, restyle)
  {
    ParagraphsAreTagged(dom);
  }

  function ClearBackground(s: Style): Style {
    s.(backgroundColor := "")
  }

  /**
   * `clearAllHighlights(container)` as written: only the background of each paragraph is
   * cleared, so a left border and padding set by `highlightParagraph` stay.
   */
  method ClearAllHighlights(c: Container)
    modifies c`nodes
    ensures c.nodes == RestyleTagged(old(c.nodes), ClearBackground)
  {
    var paragraphs := GetParagraphs(c);
    ParagraphsAreTagged(c.nodes);
    RestyleParagraphs(c.nodes, ClearBackground);
    RestyleElements(c, ElementsOf(paragraphs), ClearBackground);
  }

  function Unhighlight(s: Style): Style {
    Highlighted(s, false)
  }

  /** Clearing a pane the way `highlightParagraph(element, false)` does leaves no paragraph with
      a visible highlight and touches nothing but highlight styles. */
  lemma UnhighlightedPane(dom: seq<DomNode>)
    ensures forall p :: 0 <= p < |dom| && IsTagged(dom[p]) ==> !HasHighlight(RestyleTagged(dom, Unhighlight)[p].style)
    ensures forall p :: 0 <= p < |dom| && dom[p].Elem? ==> SameCompletion(RestyleTagged(dom, Unhighlight)[p].style, dom[p].style)
  {
  }

  /** `clearAllHighlights(container)` as evidently intended: every paragraph loses its whole
      highlight (background, border and padding), as `highlightParagraph(element, false)` does. */
  method RemoveAllHighlights(c: Container)
    modifies c`nodes
    ensures c.nodes == RestyleTagged(old(c.nodes), Unhighlight)
  {
    var paragraphs := GetParagraphs(c);
    ParagraphsAreTagged(c.nodes);
    RestyleParagraphs(c.nodes, Unhighlight);
    RestyleElements(c, ElementsOf(paragraphs), Unhighlight);
  }
}
