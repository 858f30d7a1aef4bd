/**
 * The document model shared by the three panes.
 *
 * A parsed document body is kept the way `querySelectorAll` sees it: its nodes in document
 * (pre-)order. An element records where its subtree ends, so its descendants are the nodes
 * between its own position and that end. A position in this list is the model of an element
 * reference (`HTMLElement`), and updating an element's attributes or inline style updates one
 * entry. The tree a parser builds is `Html`; `ParseBody` lays it out in document order.
 */
module Dom {

  /** The inline style properties the editor screen writes (`element.style.*`); "" is unset. */
  datatype Style = Style(
    backgroundColor: string,
    transition: string,
    borderLeft: string,
    paddingLeft: string,
    opacity: string,
    textDecoration: string,
    color: string)

  const EmptyStyle := Style("", "", "", "", "", "", "")

  datatype DomNode =
    | Elem(tag: string, attrs: map<string, string>, style: Style, subtreeEnd: nat)
    | TextNode(text: string)

  /** One past the last descendant of the node at `p` (clamped into the document). */
  function SubtreeEnd(dom: seq<DomNode>, p: nat): (e: nat)
    requires p < |dom|
    ensures p < e <= |dom|
  {
    if dom[p].TextNode? || dom[p].subtreeEnd <= p then p + 1
    else if dom[p].subtreeEnd > |dom| then |dom|
    else dom[p].subtreeEnd
  }

  /** The text nodes among positions `lo` to `hi - 1`, concatenated. */
  function Texts(dom: seq<DomNode>, lo: nat, hi: nat): string
    requires lo <= hi <= |dom|
    decreases hi - lo
  {
    if lo == hi then ""
    else (if dom[lo].TextNode? then dom[lo].text else "") + Texts(dom, lo + 1, hi)
  }

  /** `node.textContent`: for an element, the text of all its descendant text nodes. */
  function TextContent(dom: seq<DomNode>, p: nat): string
    requires p < |dom|
  {
    if dom[p].TextNode? then dom[p].text else Texts(dom, p + 1, SubtreeEnd(dom, p))
  }

  lemma {:induction false} TextsSplit(dom: seq<DomNode>, lo: nat, mid: nat, hi: nat)
    requires lo <= mid <= hi <= |dom|
    ensures Texts(dom, lo, hi) == Texts(dom, lo, mid) + Texts(dom, mid, hi)
    decreases mid - lo
  {
    if lo < mid {
      TextsSplit(dom, lo + 1, mid, hi);
    }
  }

  /** A node with its attributes and inline style erased: what a parser's tree shape fixes. */
  function Shape(n: DomNode): DomNode {
    match n
    case Elem(tag, _, _, e) => Elem(tag, map[], EmptyStyle, e)
    case TextNode(_) => n
  }

  /** The two documents differ at most in attributes and inline styles. */
  predicate SameShape(a: seq<DomNode>, b: seq<DomNode>) {
    |a| == |b| && forall i :: 0 <= i < |a| ==> Shape(a[i]) == Shape(b[i])
  }

  /** A node with its inline style erased. */
  function Unstyled(n: DomNode): DomNode {
    match n
    case Elem(tag, attrs, _, e) => Elem(tag, attrs, EmptyStyle, e)
    case TextNode(_) => n
  }

  /** The two documents differ at most in inline styles. */
  predicate SameButStyle(a: seq<DomNode>, b: seq<DomNode>) {
    |a| == |b| && forall i :: 0 <= i < |a| ==> Unstyled(a[i]) == Unstyled(b[i])
  }

  lemma {:induction false} SameShapeTexts(a: seq<DomNode>, b: seq<DomNode>, lo: nat, hi: nat)
    requires SameShape(a, b) && lo <= hi <= |a|
    ensures Texts(a, lo, hi) == Texts(b, lo, hi)
    decreases hi - lo
  {
    if lo < hi {
      assert Shape(a[lo]) == Shape(b[lo]);
      SameShapeTexts(a, b, lo + 1, hi);
    }
  }

  /** Attributes and styles have no influence on `textContent`. */
  lemma SameShapeTextContent(a: seq<DomNode>, b: seq<DomNode>, p: nat)
    requires SameShape(a, b) && p < |a|
    ensures TextContent(a, p) == TextContent(b, p)
  {
    assert Shape(a[p]) == Shape(b[p]);
    if a[p].TextNode? {
      assert b[p] == a[p];
    } else {
      assert b[p].Elem? && b[p].subtreeEnd == a[p].subtreeEnd;
      var e := SubtreeEnd(a, p);
      assert SubtreeEnd(b, p) == e;
      SameShapeTexts(a, b, p + 1, e);
      assert TextContent(a, p) == Texts(a, p + 1, e) && TextContent(b, p) == Texts(b, p + 1, e);
    }
  }

  // ---------------------------------------------------------------------------------------
  // The parser's tree and its layout in document order
  // ---------------------------------------------------------------------------------------

  /** An HTML tree as `DOMParser` builds it (comments and other node kinds are not modelled). */
  datatype Html =
    | Element(tag: string, attrs: map<string, string>, children: seq<Html>)
    | Text(text: string)

  function Size(h: Html): nat
    decreases h, 1
  {
    match h
    case Text(_) => 1
    case Element(_, _, cs) => 1 + SizeList(cs)
  }

  function SizeList(cs: seq<Html>): nat
    decreases cs, 0
  {
    if cs == [] then 0 else Size(cs[0]) + SizeList(cs[1..])
  }

  /** `textContent` of a tree node. */
  function TreeText(h: Html): string
    decreases h, 1
  {
    match h
    case Text(t) => t
    case Element(_, _, cs) => TreeTextList(cs)
  }

  function TreeTextList(cs: seq<Html>): string
    decreases cs, 0
  {
    if cs == [] then "" else TreeText(cs[0]) + TreeTextList(cs[1..])
  }

  /** The node `h` contributes at document position `pos`, its subtree ending at `pos + Size(h)`. */
  function Head(h: Html, pos: nat): DomNode {
    match h
    case Text(t) => TextNode(t)
    case Element(tag, attrs, _) => Elem(tag, attrs, EmptyStyle, pos + Size(h))
  }

  /** The nodes of `h` in document order, `h` itself standing at position `base`. */
  function Flatten(h: Html, base: nat): (r: seq<DomNode>)
    ensures |r| == Size(h)
    decreases h, 1
  {
    match h
    case Text(_) => [Head(h, base)]
    case Element(_, _, cs) => [Head(h, base)] + FlattenList(cs, base + 1)
  }

  function FlattenList(cs: seq<Html>, base: nat): (r: seq<DomNode>)
    ensures |r| == SizeList(cs)
    decreases cs, 0
  {
    if cs == [] then [] else Flatten(cs[0], base) + FlattenList(cs[1..], base + Size(cs[0]))
  }

  /** The stand-in for `DOMParser`: the body's children laid out in document order. */
  function ParseBody(body: seq<Html>): seq<DomNode> {
    FlattenList(body, 0)
  }

  /** The `k`-th node of `h` in document order (`h` itself is the 0-th). */
  function NodeAt(h: Html, k: nat): Html
    requires k < Size(h)
    decreases h, 1
  {
    if k == 0 then h else NodeAtList(h.children, k - 1)
  }

  function NodeAtList(cs: seq<Html>, k: nat): Html
    requires k < SizeList(cs)
    decreases cs, 0
  {
    if k < Size(cs[0]) then NodeAt(cs[0], k) else NodeAtList(cs[1..], k - Size(cs[0]))
  }

  lemma {:induction false} FlattenTexts(dom: seq<DomNode>, h: Html, base: nat)
    requires base + Size(h) <= |dom| && dom[base..base + Size(h)] == Flatten(h, base)
    ensures Texts(dom, base, base + Size(h)) == TreeText(h)
    decreases h, 1
  {
    match h
    case Text(_) =>
      SliceCons(dom, base, base + 1, Head(h, base), []);
    case Element(_, _, cs) =>
      SliceCons(dom, base, base + Size(h), Head(h, base), FlattenList(cs, base + 1));
      FlattenListTexts(dom, cs, base + 1);
  }

  /** A slice that is two sequences laid end to end splits into them at the seam. */
  lemma SliceSplit<T>(s: seq<T>, lo: nat, mid: nat, hi: nat, x: seq<T>, y: seq<T>)
    requires lo <= mid <= hi <= |s| && |x| == mid - lo && s[lo..hi] == x + y
    ensures s[lo..mid] == x && s[mid..hi] == y
  {
    assert s[lo..mid] == s[lo..hi][..mid - lo];
    assert s[mid..hi] == s[lo..hi][mid - lo..];
  }

  /** A slice that is one element followed by a sequence starts with that element. */
  lemma SliceCons<T>(s: seq<T>, lo: nat, hi: nat, x: T, y: seq<T>)
    requires lo < hi <= |s| && s[lo..hi] == [x] + y
    ensures s[lo] == x && s[lo + 1..hi] == y
  {
    assert s[lo] == s[lo..hi][0];
    assert s[lo + 1..hi] == s[lo..hi][1..];
  }

  lemma {:induction false} FlattenListTexts(dom: seq<DomNode>, cs: seq<Html>, base: nat)
    requires base + SizeList(cs) <= |dom| && dom[base..base + SizeList(cs)] == FlattenList(cs, base)
    ensures Texts(dom, base, base + SizeList(cs)) == TreeTextList(cs)
    decreases cs, 0
  {
    if cs != [] {
      var head, tail := cs[0], cs[1..];
      var mid, hi := base + Size(head), base + SizeList(cs);
      assert hi == mid + SizeList(tail);
      assert FlattenList(cs, base) == Flatten(head, base) + FlattenList(tail, mid);
      assert TreeTextList(cs) == TreeText(head) + TreeTextList(tail);
      SliceSplit(dom, base, mid, hi, Flatten(head, base), FlattenList(tail, mid));
      FlattenTexts(dom, head, base);
      FlattenListTexts(dom, tail, mid);
      TextsSplit(dom, base, mid, hi);
    }
  }

  /**
   * Laying a tree out in document order loses nothing: the node at position `base + k` is the
   * `k`-th node of the tree, and its `textContent` is that tree node's text content.
   */
  lemma FlattenNodeAt(dom: seq<DomNode>, h: Html, base: nat, k: nat)
    requires base + Size(h) <= |dom| && dom[base..base + Size(h)] == Flatten(h, base)
    requires k < Size(h)
    ensures dom[base + k] == Head(NodeAt(h, k), base + k)
    ensures TextContent(dom, base + k) == TreeText(NodeAt(h, k))
  {
    FlattenSubtreeAt(dom, h, base, k, base + k);
    FlattenRoot(dom, NodeAt(h, k), base + k);
  }

  lemma FlattenListNodeAt(dom: seq<DomNode>, cs: seq<Html>, base: nat, k: nat)
    requires base + SizeList(cs) <= |dom| && dom[base..base + SizeList(cs)] == FlattenList(cs, base)
    requires k < SizeList(cs)
    ensures dom[base + k] == Head(NodeAtList(cs, k), base + k)
    ensures TextContent(dom, base + k) == TreeText(NodeAtList(cs, k))
  {
    FlattenListSubtreeAt(dom, cs, base, k, base + k);
    FlattenRoot(dom, NodeAtList(cs, k), base + k);
  }

  /** The subtree of the `k`-th node of `h` is laid out where that node stands, at `p`. */
  lemma {:induction false} FlattenSubtreeAt(dom: seq<DomNode>, h: Html, base: nat, k: nat, p: nat)
    requires base + Size(h) <= |dom| && dom[base..base + Size(h)] == Flatten(h, base)
    requires k < Size(h) && p == base + k
    ensures p + Size(NodeAt(h, k)) <= base + Size(h)
    ensures dom[p..p + Size(NodeAt(h, k))] == Flatten(NodeAt(h, k), p)
    decreases h, 1
  {
    if k > 0 {
      FlattenChildSubtreeAt(dom, h, base, k, p);
    }
  }

  lemma {:induction false} FlattenChildSubtreeAt(dom: seq<DomNode>, h: Html, base: nat, k: nat, p: nat)
    requires base + Size(h) <= |dom| && dom[base..base + Size(h)] == Flatten(h, base)
    requires 0 < k < Size(h) && p == base + k
    ensures p + Size(NodeAt(h, k)) <= base + Size(h)
    ensures dom[p..p + Size(NodeAt(h, k))] == Flatten(NodeAt(h, k), p)
    decreases h, 0
  {
    var cs := h.children;
    assert base + 1 + SizeList(cs) <= |dom| && dom[base + 1..base + 1 + SizeList(cs)] == FlattenList(cs, base + 1)
        && k - 1 < SizeList(cs) && NodeAt(h, k) == NodeAtList(cs, k - 1) && Size(h) == 1 + SizeList(cs) by {
      assert h.Element?;
      assert Flatten(h, base) == [Head(h, base)] + FlattenList(cs, base + 1);
      SliceCons(dom, base, base + Size(h), Head(h, base), FlattenList(cs, base + 1));
    }
    FlattenListSubtreeAt(dom, cs, base + 1, k - 1, p);
  }

  lemma {:induction false} FlattenListSubtreeAt(dom: seq<DomNode>, cs: seq<Html>, base: nat, k: nat, p: nat)
    requires base + SizeList(cs) <= |dom| && dom[base..base + SizeList(cs)] == FlattenList(cs, base)
    requires k < SizeList(cs) && p == base + k
    ensures p + Size(NodeAtList(cs, k)) <= base + SizeList(cs)
    ensures dom[p..p + Size(NodeAtList(cs, k))] == Flatten(NodeAtList(cs, k), p)
    decreases cs, 0
  {
    var head, tail := cs[0], cs[1..];
    var mid := base + Size(head);
    FlattenListSplit(dom, cs, base, mid);
    if k < Size(head) {
      assert NodeAtList(cs, k) == NodeAt(head, k);
      FlattenSubtreeAt(dom, head, base, k, p);
    } else {
      assert NodeAtList(cs, k) == NodeAtList(tail, k - Size(head));
      FlattenListSubtreeAt(dom, tail, mid, k - Size(head), p);
    }
  }

  /** The layout of a non-empty child list is the first child's layout, then the rest's. */
  lemma FlattenListSplit(dom: seq<DomNode>, cs: seq<Html>, base: nat, mid: nat)
    requires cs != [] && mid == base + Size(cs[0])
    requires base + SizeList(cs) <= |dom| && dom[base..base + SizeList(cs)] == FlattenList(cs, base)
    ensures SizeList(cs) == Size(cs[0]) + SizeList(cs[1..])
    ensures dom[base..mid] == Flatten(cs[0], base)
    ensures dom[mid..mid + SizeList(cs[1..])] == FlattenList(cs[1..], mid)
  {
    SliceSplit(dom, base, mid, base + SizeList(cs), Flatten(cs[0], base), FlattenList(cs[1..], mid));
  }

  lemma FlattenRoot(dom: seq<DomNode>, h: Html, base: nat)
    requires base + Size(h) <= |dom| && dom[base..base + Size(h)] == Flatten(h, base)
    ensures dom[base] == Head(h, base)
    ensures TextContent(dom, base) == TreeText(h)
  {
    if h.Text? {
      SliceCons(dom, base, base + 1, Head(h, base), []);
    } else {
      var cs := h.children;
      var end := base + 1 + SizeList(cs);
      assert Size(h) == 1 + SizeList(cs) && TreeText(h) == TreeTextList(cs);
      assert Head(h, base) == Elem(h.tag, h.attrs, EmptyStyle, end);
      assert dom[base] == Head(h, base) && dom[base + 1..end] == FlattenList(cs, base + 1) by {
        SliceCons(dom, base, base + Size(h), Head(h, base), FlattenList(cs, base + 1));
      }
      assert Texts(dom, base + 1, end) == TreeTextList(cs) by {
        FlattenListTexts(dom, cs, base + 1);
      }
      TextContentOfElem(dom, base, end);
    }
  }

  /** An element's `textContent` is the text from just after it to the end of its subtree. */
  lemma TextContentOfElem(dom: seq<DomNode>, p: nat, end: nat)
    requires p < end <= |dom| && dom[p].Elem? && dom[p].subtreeEnd == end
    ensures TextContent(dom, p) == Texts(dom, p + 1, end)
  {
  }

  /** The document a parsed body gives: position `p` holds the `p`-th node of the body's trees. */
  lemma ParseBodyNodeAt(body: seq<Html>, p: nat)
    requires p < SizeList(body)
    ensures p < |ParseBody(body)|
    ensures ParseBody(body)[p] == Head(NodeAtList(body, p), p)
    ensures TextContent(ParseBody(body), p) == TreeText(NodeAtList(body, p))
  {
    var dom := ParseBody(body);
    assert dom[0..SizeList(body)] == dom;
    FlattenListNodeAt(dom, body, 0, p);
  }

  // ---------------------------------------------------------------------------------------
  // Rendered containers
  // ---------------------------------------------------------------------------------------

  /** `getBoundingClientRect()`: only the top edge and the height are read. */
  datatype Rect = Rect(top: real, height: real)

  /**
   * A rendered, scrollable container (a pane `div`): its descendant nodes, its scroll
   * metrics, its own bounding-box top and the bounding box of every element in it.
   */
  class Container {
    var nodes: seq<DomNode>
    var scrollTop: real
    var scrollHeight: real
    var clientHeight: real
    var top: real
    var layout: nat -> Rect

    /** An empty container with nothing to scroll. */
    constructor ()
      ensures nodes == [] && scrollTop == 0.0 && scrollHeight == 0.0 && clientHeight == 0.0
    {
      nodes := [];
      scrollTop, scrollHeight, clientHeight, top := 0.0, 0.0, 0.0, 0.0;
      layout := (el: nat) => Rect(0.0, 0.0);
    }
  }
}
