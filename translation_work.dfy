/**
 * The translation editor session: three panes (original, AI draft, the editor) built from a
 * document's versions, kept scrolled together and styled after the highlighted paragraph and
 * the set of completed paragraphs, behind an edit lock, with handover and completion requests.
 * The component's hooks are modelled as a state holder (`Session`) whose methods are the
 * events: a load finishing, a timer firing, a scroll, a hover, a toggle, a button press.
 */
module TranslationWork {
  import opened Wrappers
  import opened Strings
  import opened Dom
  import opened ParagraphUtils

  const NO_DOCUMENT_ID := "문서 ID가 없습니다."
  const LOAD_FAILED := "데이터를 불러오는데 실패했습니다."
  const MEMO_REQUIRED := "남은 작업 메모를 입력해주세요."
  const HANDOVER_DONE := "인계가 완료되었습니다."
  const HANDOVER_FAILED := "인계 실패: "
  const COMPLETE_DONE := "번역이 완료되었습니다!"
  const COMPLETE_FAILED := "완료 처리 실패: "
  const PENDING_ROUTE := "/translations/pending"
  /** The lock service's answer when the document is already locked. */
  const CONFLICT := 409

  const ORIGINAL := "ORIGINAL"
  const AI_DRAFT := "AI_DRAFT"
  const ORIGINAL_PANE := "original"
  const AI_DRAFT_PANE := "ai-draft"
  const EDITOR_PANE := "editor"

  // ---------------------------------------------------------------------------------------
  // The route and the service replies
  // ---------------------------------------------------------------------------------------

  /** `id ? parseInt(id, 10) : null`; `None` stands for `null` and for `NaN`. */
  function RouteDocumentId(id: Option<string>): (r: Option<int>)
    ensures id.None? || id == Some("") ==> r.None?
  {
    if id.Some? && id.value != "" then ParseInt(id.value) else None
  }

  /** `documentId` is truthy: present and not 0. */
  predicate HasDocumentId(documentId: Option<int>) {
    documentId.Some? && documentId.value != 0
  }

  /** A route carrying a document's id in decimal yields that id. */
  lemma RouteOfId(n: int)
    ensures RouteDocumentId(Some(IntToString(n))) == Some(n)
    ensures HasDocumentId(RouteDocumentId(Some(IntToString(n)))) <==> n != 0
  {
    ParseIntToString(n);
  }

  /** What a failed request threw: the HTTP status, the server's message and the error's own. */
  datatype ApiError = ApiError(status: Option<int>, serverMessage: Option<string>, message: Option<string>)

  datatype Reply<T> = Ok(value: T) | Failed(error: ApiError)

  predicate Truthy(s: Option<string>) {
    s.Some? && s.value != ""
  }

  /** `err.response?.data?.message || err.message || '데이터를 불러오는데 실패했습니다.'` */
  function LoadErrorMessage(e: ApiError): (m: string)
    ensures m != ""
    ensures Truthy(e.serverMessage) ==> m == e.serverMessage.value
  {
    if Truthy(e.serverMessage) then e.serverMessage.value
    else if Truthy(e.message) then e.message.value
    else LOAD_FAILED
  }

  /** `error.response?.data?.message || error.message`, as string concatenation prints it. */
  function FailureDetail(e: ApiError): string {
    if Truthy(e.serverMessage) then e.serverMessage.value
    else if e.message.Some? then e.message.value
    else "undefined"
  }

  /** `LockStatusResponse`; `lockedBy` is the holder's name. */
  datatype LockStatus = LockStatus(locked: bool, canEdit: bool, lockedBy: Option<string>)

  const BUSY_PREFIX := "이 문서는 "
  const BUSY_SUFFIX := "님이 작업 중입니다."

  /** `이 문서는 ${lock.lockedBy?.name}님이 작업 중입니다.`: the holder's name between the two
      fixed parts, `undefined` when the status names no holder. */
  function BusyMessage(lockedBy: Option<string>): (r: string)
    ensures var name := if lockedBy.Some? then lockedBy.value else "undefined";
      |r| == |BUSY_PREFIX| + |name| + |BUSY_SUFFIX| &&
      r[..|BUSY_PREFIX|] == BUSY_PREFIX && r[|BUSY_PREFIX|..|BUSY_PREFIX| + |name|] == name &&
      r[|BUSY_PREFIX| + |name|..] == BUSY_SUFFIX
  {
    var name := if lockedBy.Some? then lockedBy.value else "undefined";
    var r := BUSY_PREFIX + name + BUSY_SUFFIX;
    assert r[|BUSY_PREFIX|..|BUSY_PREFIX| + |name|] == name;
    r
  }

  datatype LockOutcome = Editable(status: LockStatus) | LockedOut(status: LockStatus) | LockError(error: ApiError)

  /** Step 2 of the load: acquire the lock; on a 409 read the lock's status instead. */
  function LockDecision(acquire: Reply<LockStatus>, status: Reply<LockStatus>): (o: LockOutcome)
    ensures o.Editable? ==> o.status.canEdit
    ensures o.LockedOut? ==> !o.status.canEdit
  {
    match acquire
    case Ok(lock) => if lock.canEdit then Editable(lock) else LockedOut(lock)
    case Failed(e) =>
      if e.status == Some(CONFLICT) then
        match status
        case Ok(st) => if st.canEdit then Editable(st) else LockedOut(st)
        case Failed(e2) => LockError(e2)
      else LockError(e)
  }

  /** The session is locked out exactly when the acquired lock, or after a 409 the lock's
      status, says it cannot edit; any other lock failure is an error of the whole load. */
  lemma LockOutcomes(acquire: Reply<LockStatus>, status: Reply<LockStatus>)
    ensures LockDecision(acquire, status).LockedOut? <==>
      (acquire.Ok? && !acquire.value.canEdit) ||
      (acquire.Failed? && acquire.error.status == Some(CONFLICT) && status.Ok? && !status.value.canEdit)
    ensures acquire.Failed? && acquire.error.status != Some(CONFLICT) ==>
      LockDecision(acquire, status) == LockError(acquire.error)
    ensures acquire.Failed? && acquire.error.status == Some(CONFLICT) && status.Failed? ==>
      LockDecision(acquire, status) == LockError(status.error)
    ensures LockDecision(acquire, status).Editable? <==>
      (acquire.Ok? && acquire.value.canEdit) ||
      (acquire.Failed? && acquire.error.status == Some(CONFLICT) && status.Ok? && status.value.canEdit)
  {
  }

  // ---------------------------------------------------------------------------------------
  // Versions
  // ---------------------------------------------------------------------------------------

  /** A stored version; its content is the parsed body of its HTML. */
  datatype Version = Version(versionType: string, content: seq<DomNode>)

  /** `versions.find(v => v.versionType === versionType)` */
  function FindVersion(versions: seq<Version>, versionType: string): (r: Option<Version>)
    ensures r.Some? ==> r.value in versions && r.value.versionType == versionType
    ensures r.None? ==> forall i :: 0 <= i < |versions| ==> versions[i].versionType != versionType
    ensures r.Some? ==> exists i :: 0 <= i < |versions| && versions[i] == r.value &&
                                  (forall j :: 0 <= j < i ==> versions[j].versionType != versionType)
  {
    if versions == [] then None
    else if versions[0].versionType == versionType then Some(versions[0])
    else
      var r := FindVersion(versions[1..], versionType);
      if r.Some? then
        var i :| 0 <= i < |versions[1..]| && versions[1..][i] == r.value &&
                 (forall j :: 0 <= j < i ==> versions[1..][j].versionType != versionType);
        assert versions[i + 1] == r.value;
        r
      else r
  }

  /** The version the AI-draft pane and the editor start from: the AI draft, else the original. */
  function DraftSource(versions: seq<Version>): (r: Option<Version>)
    ensures r.Some? ==> r.value in versions && (r.value.versionType == AI_DRAFT || r.value.versionType == ORIGINAL)
    ensures r.Some? && r.value.versionType != AI_DRAFT ==>
      forall i :: 0 <= i < |versions| ==> versions[i].versionType != AI_DRAFT
  {
    var draft := FindVersion(versions, AI_DRAFT);
    if draft.Some? then draft else FindVersion(versions, ORIGINAL)
  }

  /** Each pane's content is its version tagged with the pane's own container id. */
  lemma DraftSourceChoice(versions: seq<Version>)
    ensures FindVersion(versions, AI_DRAFT).Some? ==> DraftSource(versions) == FindVersion(versions, AI_DRAFT)
    ensures FindVersion(versions, AI_DRAFT).None? ==> DraftSource(versions) == FindVersion(versions, ORIGINAL)
    ensures DraftSource(versions).None? <==>
      forall i :: 0 <= i < |versions| ==> versions[i].versionType != AI_DRAFT && versions[i].versionType != ORIGINAL
  {
  }

  /** Two panes built from one version mark the same blocks, with the same indices: paragraph
      `i` of the AI-draft pane is paragraph `i` of the editor (and of the original pane when
      there is no AI draft). */
  lemma PanesAlign(html: seq<DomNode>, a: string, b: string, p: nat)
    requires Clean(html) && p < |html|
    ensures IsTagged(Annotated(html, a)[p]) <==> IsTagged(Annotated(html, b)[p])
    ensures IsTagged(Annotated(html, a)[p]) ==>
      ParagraphOf(Annotated(html, a), p).index == ParagraphOf(Annotated(html, b), p).index
  {
    TaggedAfterExtract(html, a, p);
    TaggedAfterExtract(html, b, p);
  }

  // ---------------------------------------------------------------------------------------
  // Completion and progress
  // ---------------------------------------------------------------------------------------

  predicate NoDup<T(==)>(s: seq<T>) {
    forall i, j :: 0 <= i < j < |s| ==> s[i] != s[j]
  }

  /** `set.delete(x)` on a set kept in insertion order. */
  function Remove(s: seq<Option<int>>, x: Option<int>): (r: seq<Option<int>>)
    ensures forall y :: y in r <==> y in s && y != x
    ensures NoDup(s) ==> NoDup(r)
    ensures x !in s ==> r == s
  {
    if s == [] then []
    else if s[0] == x then Remove(s[1..], x)
    else
      var rest := Remove(s[1..], x);
      assert NoDup(s) && NoDup(rest) ==> NoDup([s[0]] + rest) by {
        if NoDup(s) && NoDup(rest) {
          forall i, j | 0 <= i < j < |[s[0]] + rest| ensures ([s[0]] + rest)[i] != ([s[0]] + rest)[j] {
            if i == 0 {
              var y := rest[j - 1];
              assert ([s[0]] + rest)[j] == y && y in rest;
              var k :| 0 <= k < |s[1..]| && s[1..][k] == y;
              assert s[k + 1] == y;
            }
          }
        }
      }
      [s[0]] + rest
  }

  /** `toggleParagraphComplete(index)` on the completed set (a JavaScript `Set` of paragraph
      indices, where `NaN` is one value); the set's insertion order is kept. */
  function Toggled(s: seq<Option<int>>, x: Option<int>): (r: seq<Option<int>>)
    ensures x in r <==> x !in s
    ensures forall y :: y != x ==> (y in r <==> y in s)
    ensures NoDup(s) ==> NoDup(r)
  {
    if x in s then Remove(s, x) else s + [x]
  }

  /** Toggling twice restores the set; when the index was absent the order is restored too. */
  lemma ToggleTwice(s: seq<Option<int>>, x: Option<int>)
    ensures forall y :: y in Toggled(Toggled(s, x), x) <==> y in s
    ensures x !in s ==> Toggled(Toggled(s, x), x) == s
  {
    if x !in s {
      RemoveLast(s, x);
    }
  }

  lemma {:induction false} RemoveLast(s: seq<Option<int>>, x: Option<int>)
    requires x !in s
    ensures Remove(s + [x], x) == s
  {
    if s != [] {
      assert (s + [x])[1..] == s[1..] + [x];
      RemoveLast(s[1..], x);
    }
  }

  /** `Math.round((completed / total) * 100)` when there are paragraphs, else 0. Rounding is
      to nearest with halves up. */
  function ProgressPercent(completed: int, total: int): (r: int)
    ensures total > 0 ==> 2 * r * total <= 200 * completed + total < 2 * r * total + 2 * total
    ensures total <= 0 ==> r == 0
  {
    if total > 0 then (200 * completed + total) / (2 * total) else 0
  }

  /** The figure stays between 0 and 100, is 0 with nothing done and 100 with everything done. */
  lemma ProgressBounds(completed: int, total: int)
    requires 0 <= completed <= total
    ensures 0 <= ProgressPercent(completed, total) <= 100
    ensures completed == 0 ==> ProgressPercent(completed, total) == 0
    ensures 0 < completed == total ==> ProgressPercent(completed, total) == 100
  {
    if total > 0 {
      var r := ProgressPercent(completed, total);
      var q := 2 * total;
      assert q * r <= 200 * completed + total < q * (r + 1);
      MulLess(r, 101, q);
      MulLess(-1, r, q);
      if completed == 0 {
        MulLess(r, 1, q);
      }
      if completed == total {
        MulLess(99, r, q);
      }
    }
  }

  /** Dividing out a positive factor keeps a strict inequality. */
  lemma MulLess(a: int, b: int, q: int)
    requires q > 0
    ensures q * a < q * b ==> a < b
  {
    if a >= b {
      assert q * a - q * b == q * (a - b);
      assert q * (a - b) >= 0;
    }
  }

  // ---------------------------------------------------------------------------------------
  // Scroll synchronisation
  // ---------------------------------------------------------------------------------------

  function MaxScroll(scrollHeight: real, clientHeight: real): real {
    scrollHeight - clientHeight
  }

  /** `scrollRatio`: how far down the source pane is scrolled, 0 when it cannot scroll. */
  function ScrollRatio(scrollTop: real, scrollHeight: real, clientHeight: real): (r: real)
    ensures MaxScroll(scrollHeight, clientHeight) <= 0.0 ==> r == 0.0
    ensures 0.0 <= scrollTop <= MaxScroll(scrollHeight, clientHeight) ==> 0.0 <= r <= 1.0
  {
    var maxScroll := MaxScroll(scrollHeight, clientHeight);
    if maxScroll > 0.0 then scrollTop / maxScroll else 0.0
  }

  /** A target pane's new `scrollTop`; a pane that cannot scroll keeps its own. */
  function SyncedScrollTop(ratio: real, scrollTop: real, scrollHeight: real, clientHeight: real): (r: real)
    ensures MaxScroll(scrollHeight, clientHeight) <= 0.0 ==> r == scrollTop
    ensures 0.0 <= ratio <= 1.0 && MaxScroll(scrollHeight, clientHeight) > 0.0 ==>
      0.0 <= r <= MaxScroll(scrollHeight, clientHeight)
  {
    var panelMaxScroll := MaxScroll(scrollHeight, clientHeight);
    assert 0.0 <= ratio <= 1.0 && panelMaxScroll > 0.0 ==> ratio * panelMaxScroll <= 1.0 * panelMaxScroll;
    if panelMaxScroll > 0.0 then ratio * panelMaxScroll else scrollTop
  }

  /** A target that can scroll ends up scrolled in the same ratio as the source. */
  lemma RatioPreserved(ratio: real, scrollTop: real, scrollHeight: real, clientHeight: real)
    requires MaxScroll(scrollHeight, clientHeight) > 0.0
    ensures ScrollRatio(SyncedScrollTop(ratio, scrollTop, scrollHeight, clientHeight), scrollHeight, clientHeight) == ratio
  {
    var m := MaxScroll(scrollHeight, clientHeight);
    assert (ratio * m) / m == ratio;
  }

  /** `currentPara.index` becomes the highlighted index only when a paragraph was found. */
  function HighlightAfterScroll(found: Option<Paragraph>, highlighted: Option<Option<int>>): (r: Option<Option<int>>)
    ensures found.None? ==> r == highlighted
    ensures found.Some? ==> r == Some(found.value.index)
  {
    if found.Some? then Some(found.value.index) else highlighted
  }

  // ---------------------------------------------------------------------------------------
  // Paragraph styles
  // ---------------------------------------------------------------------------------------

  /** `para.index === highlightedParagraphIndex`: `null` highlights nothing and `NaN` equals nothing. */
  predicate IsHighlightedIndex(index: Option<int>, highlighted: Option<Option<int>>) {
    index.Some? && highlighted == Some(index)
  }

  /** The index `getParagraphs` reads off a tagged element. */
  function NodeIndex(n: DomNode): Option<int>
    requires IsTagged(n)
  {
    ParseInt(n.attrs[PARAGRAPH_INDEX])
  }

  /** What the `forEach` of `applyParagraphStyles` does to one paragraph's style: highlight it
      if it is the highlighted one (and otherwise leave its highlight alone), then set or clear
      its completion mark. */
  function ParagraphStyle(s: Style, index: Option<int>, highlighted: Option<Option<int>>,
                          completed: seq<Option<int>>): (r: Style)
    ensures IsHighlightedIndex(index, highlighted) ==> HasHighlight(r) && r.borderLeft == HIGHLIGHT_BORDER
    ensures !IsHighlightedIndex(index, highlighted) ==> SameHighlight(r, s)
    ensures HasCompletionMark(r) <==> index in completed
  {
    Completed(if IsHighlightedIndex(index, highlighted) then Highlighted(s, true) else s, index in completed)
  }

  function MarkedNode(n: DomNode, highlighted: Option<Option<int>>, completed: seq<Option<int>>): DomNode
    requires IsTagged(n)
  {
    WithStyle(n, ParagraphStyle(n.style, NodeIndex(n), highlighted, completed))
  }

  /** The pane after the paragraphs at `els` have been through the `forEach`. */
  function MarkedAt(dom: seq<DomNode>, els: seq<nat>, highlighted: Option<Option<int>>,
                    completed: seq<Option<int>>): (r: seq<DomNode>)
    ensures |r| == |dom|
  {
    seq(|dom|, p requires 0 <= p < |dom| =>
      if p in els && IsTagged(dom[p]) then MarkedNode(dom[p], highlighted, completed) else dom[p])
  }

  /** The pane after every paragraph has been through the `forEach`. */
  function Marked(dom: seq<DomNode>, highlighted: Option<Option<int>>, completed: seq<Option<int>>): (r: seq<DomNode>)
    ensures SameButStyle(r, dom)
    ensures forall p :: 0 <= p < |dom| && IsTagged(dom[p]) ==>
      r[p].style == ParagraphStyle(dom[p].style, NodeIndex(dom[p]), highlighted, completed)
    ensures forall p :: 0 <= p < |dom| && !IsTagged(dom[p]) ==> r[p] == dom[p]
  {
    seq(|dom|, p requires 0 <= p < |dom| =>
      if IsTagged(dom[p]) then MarkedNode(dom[p], highlighted, completed) else dom[p])
  }

  /** Going through the `forEach` twice is going through it once. */
  lemma MarkedAtStep(dom: seq<DomNode>, els: seq<nat>, e: nat, highlighted: Option<Option<int>>,
                     completed: seq<Option<int>>)
    requires e < |dom| && IsTagged(dom[e])
    ensures var m := MarkedAt(dom, els, highlighted, completed);
      IsTagged(m[e]) && NodeIndex(m[e]) == NodeIndex(dom[e]) &&
      MarkedAt(dom, els + [e], highlighted, completed) == m[e := MarkedNode(m[e], highlighted, completed)]
  {
    var m := MarkedAt(dom, els, highlighted, completed);
    var m' := MarkedAt(dom, els + [e], highlighted, completed);
    var n := MarkedNode(dom[e], highlighted, completed);
    MarkedNodeTwice(dom[e], highlighted, completed);
    if e in els {
      assert m[e] == n;
    } else {
      assert m[e] == dom[e];
    }
    var x := MarkedNode(m[e], highlighted, completed);
    assert x == n;
    forall p | 0 <= p < |dom| ensures m'[p] == m[e := x][p] {
      if p == e {
        assert e in els + [e];
      } else {
        assert (p in els + [e]) == (p in els);
      }
    }
    assert m' == m[e := x];
  }

  /** Marking keeps a paragraph's tags, and marking it again changes nothing. */
  lemma MarkedNodeTwice(n: DomNode, highlighted: Option<Option<int>>, completed: seq<Option<int>>)
    requires IsTagged(n)
    ensures IsTagged(MarkedNode(n, highlighted, completed))
    ensures NodeIndex(MarkedNode(n, highlighted, completed)) == NodeIndex(n)
    ensures MarkedNode(MarkedNode(n, highlighted, completed), highlighted, completed) == MarkedNode(n, highlighted, completed)
  {
    var m := MarkedNode(n, highlighted, completed);
    assert m.attrs == n.attrs;
  }

  /** The `forEach` of `applyParagraphStyles` over the pane's paragraphs. Lines 277-285 write the
      three properties `markParagraphComplete` writes, so that method stands for them. */
  method MarkParagraphs(pane: Container, highlighted: Option<Option<int>>, completed: seq<Option<int>>)
    modifies pane`nodes
    ensures pane.nodes == Marked(old(pane.nodes), highlighted, completed)
  {
    ghost var before := pane.nodes;
    var paragraphs := GetParagraphs(pane);
    ParagraphsAreTagged(before);
    forall i | 0 <= i < |paragraphs|
      ensures paragraphs[i].element < |before| && IsTagged(before[paragraphs[i].element])
      ensures paragraphs[i].index == NodeIndex(before[paragraphs[i].element])
    {
      assert paragraphs[i] == ParagraphOf(before, paragraphs[i].element);
    }
    MarkEach(pane, paragraphs, highlighted, completed);
    ghost var els := ElementsOf(paragraphs);
    MarkedUpToAt(before, paragraphs, |paragraphs|, highlighted, completed);
    assert els[..|paragraphs|] == els;
    MarkedAtAll(before, els, highlighted, completed);
  }

  /** The pane after the first `i` of `paragraphs` have been through the `forEach`, in turn. */
  function MarkedUpTo(dom: seq<DomNode>, ps: seq<Paragraph>, i: nat, highlighted: Option<Option<int>>,
                      completed: seq<Option<int>>): (r: seq<DomNode>)
    requires i <= |ps|
    requires forall j :: 0 <= j < |ps| ==> ps[j].element < |dom| && IsTagged(dom[ps[j].element])
    ensures SameButStyle(r, dom)
  {
    if i == 0 then dom
    else
      var m := MarkedUpTo(dom, ps, i - 1, highlighted, completed);
      var e := ps[i - 1].element;
      assert Unstyled(m[e]) == Unstyled(dom[e]);
      m[e := MarkedNode(m[e], highlighted, completed)]
  }

  /** Visiting the paragraphs in turn marks each paragraph's element once, whatever the order. */
  lemma {:induction false} MarkedUpToAt(dom: seq<DomNode>, ps: seq<Paragraph>, i: nat,
                                        highlighted: Option<Option<int>>, completed: seq<Option<int>>)
    requires i <= |ps|
    requires forall j :: 0 <= j < |ps| ==> ps[j].element < |dom| && IsTagged(dom[ps[j].element])
    ensures MarkedUpTo(dom, ps, i, highlighted, completed) == MarkedAt(dom, ElementsOf(ps)[..i], highlighted, completed)
  {
    var els := ElementsOf(ps);
    if i == 0 {
      assert MarkedAt(dom, els[..0], highlighted, completed) == dom;
    } else {
      MarkedUpToAt(dom, ps, i - 1, highlighted, completed);
      MarkedAtStep(dom, els[..i - 1], els[i - 1], highlighted, completed);
      PrefixSnoc(els, i);
    }
  }

  lemma PrefixSnoc(s: seq<nat>, i: nat)
    requires 0 < i <= |s|
    ensures s[..i] == s[..i - 1] + [s[i - 1]]
  {
  }

  /** The `forEach` over `paragraphs`, each naming a tagged element of the pane and its index. */
  method MarkEach(pane: Container, paragraphs: seq<Paragraph>, highlighted: Option<Option<int>>,
                  completed: seq<Option<int>>)
    requires forall i :: 0 <= i < |paragraphs| ==>
      paragraphs[i].element < |pane.nodes| && IsTagged(pane.nodes[paragraphs[i].element]) &&
      paragraphs[i].index == NodeIndex(pane.nodes[paragraphs[i].element])
    modifies pane`nodes
    ensures pane.nodes == MarkedUpTo(old(pane.nodes), paragraphs, |paragraphs|, highlighted, completed)
  {
    ghost var before := pane.nodes;
    for i := 0 to |paragraphs|
      invariant pane.nodes == MarkedUpTo(before, paragraphs, i, highlighted, completed)
    {
      var e := paragraphs[i].element;
      assert Unstyled(pane.nodes[e]) == Unstyled(before[e]);
      MarkParagraph(pane, paragraphs[i], highlighted, completed);
    }
  }

  lemma MarkedAtAll(dom: seq<DomNode>, els: seq<nat>, highlighted: Option<Option<int>>, completed: seq<Option<int>>)
    requires forall p :: p in els <==> 0 <= p < |dom| && IsTagged(dom[p])
    ensures MarkedAt(dom, els, highlighted, completed) == Marked(dom, highlighted, completed)
  {
  }

  /** One round of the `forEach`. */
  method MarkParagraph(pane: Container, para: Paragraph, highlighted: Option<Option<int>>, completed: seq<Option<int>>)
    requires para.element < |pane.nodes| && IsTagged(pane.nodes[para.element])
    requires para.index == NodeIndex(pane.nodes[para.element])
    modifies pane`nodes
    ensures pane.nodes == old(pane.nodes)[para.element := MarkedNode(old(pane.nodes)[para.element], highlighted, completed)]
  {
    var isHighlighted := IsHighlightedIndex(para.index, highlighted);
    var isComplete := para.index in completed;
    if isHighlighted {
      HighlightParagraph(pane, para.element, true);
    }
    MarkParagraphComplete(pane, para.element, isComplete);
  }

  /** A pane after `applyParagraphStyles` as written: only backgrounds are cleared first. */
  function StyledAsWritten(dom: seq<DomNode>, highlighted: Option<Option<int>>, completed: seq<Option<int>>): seq<DomNode> {
    Marked(RestyleTagged(dom, ClearBackground), highlighted, completed)
  }

  /** A pane after `applyParagraphStyles` with every highlight removed first. */
  function StyledCorrected(dom: seq<DomNode>, highlighted: Option<Option<int>>, completed: seq<Option<int>>): seq<DomNode> {
    Marked(RestyleTagged(dom, Unhighlight), highlighted, completed)
  }

  /** `applyParagraphStyles(panel)` as written. */
  method ApplyParagraphStylesAsWritten(pane: Container, highlighted: Option<Option<int>>, completed: seq<Option<int>>)
    modifies pane`nodes
    ensures pane.nodes == StyledAsWritten(old(pane.nodes), highlighted, completed)
  {
    ClearAllHighlights(pane);
    MarkParagraphs(pane, highlighted, completed);
  }

  /** `applyParagraphStyles(panel)` with the highlights removed the way `highlightParagraph(el, false)`
      removes one. */
  method ApplyParagraphStyles(pane: Container, highlighted: Option<Option<int>>, completed: seq<Option<int>>)
    modifies pane`nodes
    ensures pane.nodes == StyledCorrected(old(pane.nodes), highlighted, completed)
  {
    RemoveAllHighlights(pane);
    MarkParagraphs(pane, highlighted, completed);
  }

  /** After the corrected restyle a pane shows exactly the session's state, whatever it showed
      before: the highlighted paragraph and no other carries a highlight, the completed ones and
      no others a completion mark, and nothing but inline styles changes. */
  lemma PaneShowsState(dom: seq<DomNode>, highlighted: Option<Option<int>>, completed: seq<Option<int>>)
    ensures SameButStyle(StyledCorrected(dom, highlighted, completed), dom)
    ensures forall p :: 0 <= p < |dom| && IsTagged(dom[p]) ==>
      (HasHighlight(StyledCorrected(dom, highlighted, completed)[p].style) <==> IsHighlightedIndex(NodeIndex(dom[p]), highlighted)) &&
      (HasCompletionMark(StyledCorrected(dom, highlighted, completed)[p].style) <==> NodeIndex(dom[p]) in completed)
    ensures forall p :: 0 <= p < |dom| && !IsTagged(dom[p]) ==> StyledCorrected(dom, highlighted, completed)[p] == dom[p]
  {
    var cleared := RestyleTagged(dom, Unhighlight);
    forall p | 0 <= p < |dom| ensures IsTagged(cleared[p]) == IsTagged(dom[p]) && (IsTagged(dom[p]) ==> cleared[p].attrs == dom[p].attrs) {
      assert Unstyled(cleared[p]) == Unstyled(dom[p]);
    }
    UnhighlightedPane(dom);
  }

  /** As written, a paragraph that is not the highlighted one keeps whatever left border it had:
      the one set when it was last highlighted stays. */
  lemma AsWrittenKeepsBorder(dom: seq<DomNode>, highlighted: Option<Option<int>>, completed: seq<Option<int>>, p: nat)
    requires p < |dom| && IsTagged(dom[p]) && !IsHighlightedIndex(NodeIndex(dom[p]), highlighted)
    ensures StyledAsWritten(dom, highlighted, completed)[p].style.borderLeft == dom[p].style.borderLeft
    ensures IsTagged(StyledAsWritten(dom, highlighted, completed)[p])
    ensures NodeIndex(StyledAsWritten(dom, highlighted, completed)[p]) == NodeIndex(dom[p])
  {
    var cleared := RestyleTagged(dom, ClearBackground);
    assert Unstyled(cleared[p]) == Unstyled(dom[p]);
    var r := StyledAsWritten(dom, highlighted, completed);
    assert Unstyled(r[p]) == Unstyled(cleared[p]);
  }

  /** Two paragraphs, indices 0 and 1, unstyled. */
  const TWO_PARAGRAPHS: seq<DomNode> := [
    Elem("p", map[PARAGRAPH_ID := "para-c-0", PARAGRAPH_INDEX := "0"], EmptyStyle, 2), TextNode("a"),
    Elem("p", map[PARAGRAPH_ID := "para-c-1", PARAGRAPH_INDEX := "1"], EmptyStyle, 4), TextNode("b")]

  lemma TwoParagraphsFacts()
    ensures IsTagged(TWO_PARAGRAPHS[0]) && NodeIndex(TWO_PARAGRAPHS[0]) == Some(0)
  {
    var n := TWO_PARAGRAPHS[0];
    assert n == Elem("p", map[PARAGRAPH_ID := "para-c-0", PARAGRAPH_INDEX := "0"], EmptyStyle, 2);
    assert n.attrs[PARAGRAPH_INDEX] == "0";
    NodeIndexReads(n, "0");
    ParseZero();
  }

  lemma NodeIndexReads(n: DomNode, s: string)
    requires IsTagged(n) && n.attrs[PARAGRAPH_INDEX] == s
    ensures NodeIndex(n) == ParseInt(s)
  {
  }

  /** Highlighting paragraph 0 and then paragraph 1 leaves paragraph 0 with its border as
      written, and with no highlight once highlights are removed in full. */
  lemma StaleHighlightAfterMove()
    ensures var first := StyledAsWritten(TWO_PARAGRAPHS, Some(Some(0)), []);
      var second := StyledAsWritten(first, Some(Some(1)), []);
      HasHighlight(second[0].style) && second[0].style.borderLeft == HIGHLIGHT_BORDER
    ensures var first := StyledCorrected(TWO_PARAGRAPHS, Some(Some(0)), []);
      var second := StyledCorrected(first, Some(Some(1)), []);
      !HasHighlight(second[0].style)
  {
    TwoParagraphsFacts();
    var dom := TWO_PARAGRAPHS;
    var first := StyledAsWritten(dom, Some(Some(0)), []);
    var cleared := RestyleTagged(dom, ClearBackground);
    assert Unstyled(cleared[0]) == Unstyled(dom[0]);
    assert first[0].style.borderLeft == HIGHLIGHT_BORDER;
    assert Unstyled(first[0]) == Unstyled(cleared[0]);
    AsWrittenKeepsBorder(first, Some(Some(1)), [], 0);
    var first' := StyledCorrected(dom, Some(Some(0)), []);
    PaneShowsState(dom, Some(Some(0)), []);
    assert Unstyled(first'[0]) == Unstyled(dom[0]);
    PaneShowsState(first', Some(Some(1)), []);
  }

  // ---------------------------------------------------------------------------------------
  // Re-indexing the editor
  // ---------------------------------------------------------------------------------------

  /** Matched by `[data-paragraph-index]`. */
  predicate HasIndexAttribute(n: DomNode) {
    n.Elem? && PARAGRAPH_INDEX in n.attrs
  }

  /** `updateParagraphIds` replaces the editor's content only when the editor has no indexed
      element and tagging its HTML changes it. */
  function NeedsReindex(doc: seq<DomNode>): (r: bool)
    ensures r ==> exists p :: 0 <= p < |doc| && IsBlock(doc[p]) && Qualifies(doc, p)
  {
    ChangedAtQualifying(doc);
    (forall p :: 0 <= p < |doc| ==> !HasIndexAttribute(doc[p])) && Annotated(doc, EDITOR_PANE) != doc
  }

  /** Tagging changes a document only at a selector match with non-blank text. */
  lemma ChangedAtQualifying(doc: seq<DomNode>)
    ensures Annotated(doc, EDITOR_PANE) != doc ==> exists p :: 0 <= p < |doc| && IsBlock(doc[p]) && Qualifies(doc, p)
  {
    var a := Annotated(doc, EDITOR_PANE);
    if a != doc {
      assert exists p :: 0 <= p < |doc| && a[p] != doc[p];
      var p :| 0 <= p < |doc| && a[p] != doc[p];
      assert IsBlock(doc[p]) && Qualifies(doc, p);
    }
  }

  /** With `setContent` storing the document as given, re-indexing settles after one round: the
      re-indexed content has indexed elements. The page's editor schema drops the attributes, so
      this is a property of the model's editor, not of the page. */
  lemma ReindexSettles(doc: seq<DomNode>)
    requires NeedsReindex(doc)
    ensures !NeedsReindex(Annotated(doc, EDITOR_PANE))
  {
    var a := Annotated(doc, EDITOR_PANE);
    var p :| 0 <= p < |doc| && IsBlock(doc[p]) && Qualifies(doc, p);
    assert a[p] == Tag(doc[p], EDITOR_PANE, BlockIndex(doc, p));
    assert HasIndexAttribute(a[p]);
  }

  /** `Math.min(from, newDoc.content.size)` */
  function CaretAfter(from: nat, size: nat): (r: nat)
    ensures r <= from && r <= size && (r == from || r == size)
  {
    if from <= size then from else size
  }

  // ---------------------------------------------------------------------------------------
  // Requests
  // ---------------------------------------------------------------------------------------

  datatype HandoverRequest = HandoverRequest(documentId: int, memo: string, terms: Option<string>,
                                             completedParagraphs: seq<Option<int>>)

  /** `confirmHandover`'s checks and payload; `None` when no request is sent. */
  function HandoverPayload(documentId: Option<int>, memo: string, terms: string,
                           completed: seq<Option<int>>): (r: Option<HandoverRequest>)
    ensures r.None? <==> !HasDocumentId(documentId) || IsBlank(memo)
    ensures r.Some? ==> r.value == HandoverRequest(documentId.value, Trim(memo),
                                                   if IsBlank(terms) then None else Some(Trim(terms)), completed)
  {
    if !HasDocumentId(documentId) || Trim(memo) == "" then None
    else
      var t := Trim(terms);
      Some(HandoverRequest(documentId.value, Trim(memo), if t == "" then None else Some(t), completed))
  }

  /** A handover that is sent carries a memo that is neither empty nor padded with whitespace. */
  lemma HandoverMemoTrimmed(documentId: Option<int>, memo: string, terms: string, completed: seq<Option<int>>)
    requires HandoverPayload(documentId, memo, terms, completed).Some?
    ensures var m := HandoverPayload(documentId, memo, terms, completed).value.memo;
      m != "" && !IsWhitespace(m[0]) && !IsWhitespace(m[|m| - 1])
  {
  }

  /** The body of a save or completion request. */
  datatype SaveRequest = SaveRequest(documentId: int, content: seq<DomNode>, completedParagraphs: seq<Option<int>>)

  /** The autosave timer's request: sent whenever there is an editor and a document id, whatever
      the lock says. */
  function AutosavePayload(documentId: Option<int>, editorReady: bool, content: seq<DomNode>,
                           completed: seq<Option<int>>): (r: Option<SaveRequest>)
    ensures r.None? <==> !editorReady || !HasDocumentId(documentId)
    ensures r.Some? ==> r.value == SaveRequest(documentId.value, content, completed)
  {
    if !editorReady || !HasDocumentId(documentId) then None
    else Some(SaveRequest(documentId.value, content, completed))
  }

  /** `handleComplete`: sent only with a document id, an editor and the user's confirmation. */
  function CompletePayload(documentId: Option<int>, editorReady: bool, confirmed: bool, content: seq<DomNode>,
                           completed: seq<Option<int>>): (r: Option<SaveRequest>)
    ensures r.None? <==> !editorReady || !HasDocumentId(documentId) || !confirmed
    ensures r.Some? ==> r == AutosavePayload(documentId, editorReady, content, completed)
  {
    if !HasDocumentId(documentId) || !editorReady || !confirmed then None
    else Some(SaveRequest(documentId.value, content, completed))
  }

  /** What the user sees after a handover or completion request: an alert, and on success the
      way back to the pending list. */
  datatype Feedback = Feedback(alert: string, navigateTo: Option<string>)

  function RequestFeedback(result: Option<ApiError>, success: string, failurePrefix: string): (f: Feedback)
    ensures f.navigateTo.Some? <==> result.None?
    ensures f.navigateTo.Some? ==> f.navigateTo.value == PENDING_ROUTE && f.alert == success
  {
    match result
    case None => Feedback(success, Some(PENDING_ROUTE))
    case Some(e) => Feedback(failurePrefix + FailureDetail(e), None)
  }

  // ---------------------------------------------------------------------------------------
  // What the page shows
  // ---------------------------------------------------------------------------------------

  datatype Screen = LoadingScreen | ErrorScreen(message: string) | Workspace

  function ScreenOf(loading: bool, error: Option<string>, lockStatus: Option<LockStatus>): (r: Screen)
    ensures r == LoadingScreen <==> loading
    ensures r.ErrorScreen? <==> !loading && Truthy(error) && !(lockStatus.Some? && lockStatus.value.canEdit)
    ensures r.ErrorScreen? ==> error == Some(r.message)
    ensures r == Workspace <==> !loading && (!Truthy(error) || (lockStatus.Some? && lockStatus.value.canEdit))
  {
    if loading then LoadingScreen
    else if Truthy(error) && !(lockStatus.Some? && lockStatus.value.canEdit) then ErrorScreen(error.value)
    else Workspace
  }

  /** `parseInt(el.getAttribute('data-paragraph-index') || '0', 10)` on the element under the
      mouse. */
  function HoverIndex(attr: Option<string>): (r: Option<int>)
    ensures attr.None? || attr == Some("") ==> r == Some(0)
    ensures attr.Some? && attr.value != "" ==> r == ParseInt(attr.value)
  {
    ParseNatToString(0);
    ParseInt(if attr.Some? && attr.value != "" then attr.value else "0")
  }

  // ---------------------------------------------------------------------------------------
  // The load
  // ---------------------------------------------------------------------------------------

  /** The document record the page keeps. */
  datatype DocumentInfo = DocumentInfo(id: int, title: string)

  /** The replies of the load's requests, in the order it makes them: the document, the lock,
      the lock's status (asked for only after a 409) and the versions. */
  datatype LoadReplies = LoadReplies(document: Reply<DocumentInfo>, acquire: Reply<LockStatus>,
                                     lockStatus: Reply<LockStatus>, versions: Reply<seq<Version>>)

  /** The session's state, field for field. */
  datatype SessionState = SessionState(
    loading: bool,
    error: Option<string>,
    lockStatus: Option<LockStatus>,
    document: Option<DocumentInfo>,
    originalContent: seq<DomNode>,
    aiDraftContent: seq<DomNode>,
    completedParagraphs: seq<Option<int>>,
    progressCompleted: nat,
    progressTotal: nat,
    highlighted: Option<Option<int>>,
    showHandoverModal: bool,
    handoverMemo: string,
    handoverTerms: string,
    isScrolling: bool,
    countPending: bool)

  const INITIAL_SESSION := SessionState(true, None, None, None, [], [], [], 0, 0, None, false, "", "", false, false)

  /** The session after `loadData` ran to its end from `st`. */
  function LoadedState(st: SessionState, documentId: Option<int>, replies: LoadReplies): (r: SessionState)
    ensures !r.loading
    ensures r.completedParagraphs == st.completedParagraphs && r.progressCompleted == st.progressCompleted
  {
    if !HasDocumentId(documentId) then st.(error := Some(NO_DOCUMENT_ID), loading := false)
    else
      match replies.document
      case Failed(e) => st.(error := Some(LoadErrorMessage(e)), loading := false)
      case Ok(doc) => AfterLock(st.(loading := true, error := None, document := Some(doc)), replies).(loading := false)
  }

  /** The lock check and then, when editing is allowed, the versions reply. */
  function AfterLock(st: SessionState, replies: LoadReplies): (r: SessionState)
    ensures r.loading == st.loading
    ensures r.completedParagraphs == st.completedParagraphs && r.progressCompleted == st.progressCompleted
  {
    match LockDecision(replies.acquire, replies.lockStatus)
    case LockedOut(lock) => st.(lockStatus := Some(lock), error := Some(BusyMessage(lock.lockedBy)))
    case LockError(e) => st.(error := Some(LoadErrorMessage(e)))
    case Editable(lock) =>
      var st2 := st.(lockStatus := Some(lock));
      match replies.versions
      case Failed(_) => st2
      case Ok(versions) => WithVersions(st2, versions)
  }

  /** The session once the versions arrived: the original pane shows the original, the draft
      pane the AI draft (else the original), and the paragraph count is scheduled. */
  function WithVersions(st: SessionState, versions: seq<Version>): SessionState {
    var original := FindVersion(versions, ORIGINAL);
    var draft := DraftSource(versions);
    st.(originalContent := if original.Some? then Annotated(original.value.content, ORIGINAL_PANE) else st.originalContent,
        aiDraftContent := if draft.Some? then Annotated(draft.value.content, AI_DRAFT_PANE) else st.aiDraftContent,
        countPending := true)
  }

  /** The editor's document after `loadData`. */
  function EditorAfterLoad(doc: seq<DomNode>, documentId: Option<int>, replies: LoadReplies, editorReady: bool): seq<DomNode> {
    if HasDocumentId(documentId) && replies.document.Ok? && editorReady && replies.versions.Ok? &&
       LockDecision(replies.acquire, replies.lockStatus).Editable? && DraftSource(replies.versions.value).Some?
    then Annotated(DraftSource(replies.versions.value).value.content, EDITOR_PANE)
    else doc
  }

  /** Locked out (directly or after a 409): the page shows who holds the lock and no version
      is loaded. */
  lemma LockedOutShowsHolder(st: SessionState, documentId: Option<int>, replies: LoadReplies, editorReady: bool)
    requires HasDocumentId(documentId) && replies.document.Ok?
    requires LockDecision(replies.acquire, replies.lockStatus).LockedOut?
    ensures var lock := LockDecision(replies.acquire, replies.lockStatus).status;
      var r := LoadedState(st, documentId, replies);
      ScreenOf(r.loading, r.error, r.lockStatus) == ErrorScreen(BusyMessage(lock.lockedBy)) &&
      r.originalContent == st.originalContent && r.aiDraftContent == st.aiDraftContent &&
      r.countPending == st.countPending &&
      EditorAfterLoad(st.originalContent, documentId, replies, editorReady) == st.originalContent
  {
  }

  /** Without a document id the load stops at once with its message; nothing is fetched. */
  lemma NoDocumentIdShowsError(st: SessionState, documentId: Option<int>, replies: LoadReplies)
    requires !HasDocumentId(documentId)
    ensures var r := LoadedState(st, documentId, replies);
      r.error == Some(NO_DOCUMENT_ID) && r.document == st.document && r.lockStatus == st.lockStatus &&
      r.originalContent == st.originalContent && r.aiDraftContent == st.aiDraftContent
    ensures var r := LoadedState(st, documentId, replies);
      st.lockStatus.None? ==> ScreenOf(r.loading, r.error, r.lockStatus) == ErrorScreen(NO_DOCUMENT_ID)
  {
  }

  /** A failed document request shows its load error; no lock is taken and no version read. */
  lemma DocumentFailureShowsError(st: SessionState, documentId: Option<int>, replies: LoadReplies)
    requires HasDocumentId(documentId) && replies.document.Failed?
    ensures var r := LoadedState(st, documentId, replies);
      r.error == Some(LoadErrorMessage(replies.document.error)) && r.lockStatus == st.lockStatus &&
      r.document == st.document && r.originalContent == st.originalContent && r.aiDraftContent == st.aiDraftContent
    ensures var r := LoadedState(st, documentId, replies);
      st.lockStatus.None? ==> ScreenOf(r.loading, r.error, r.lockStatus) == ErrorScreen(LoadErrorMessage(replies.document.error))
  {
  }

  /** A lock failure other than a 409, or a failed status read after one, ends the load with
      its message; on a first load the page shows it. */
  lemma LockFailureShowsError(st: SessionState, documentId: Option<int>, replies: LoadReplies)
    requires HasDocumentId(documentId) && replies.document.Ok?
    requires LockDecision(replies.acquire, replies.lockStatus).LockError?
    requires st.lockStatus.None?
    ensures var e := LockDecision(replies.acquire, replies.lockStatus).error;
      var r := LoadedState(st, documentId, replies);
      ScreenOf(r.loading, r.error, r.lockStatus) == ErrorScreen(LoadErrorMessage(e)) &&
      r.originalContent == st.originalContent && r.aiDraftContent == st.aiDraftContent
  {
  }

  /** A failed version request is swallowed: the load ends with no error and the workspace shows. */
  lemma VersionFailureSwallowed(st: SessionState, documentId: Option<int>, replies: LoadReplies)
    requires HasDocumentId(documentId) && replies.document.Ok?
    requires LockDecision(replies.acquire, replies.lockStatus).Editable? && replies.versions.Failed?
    ensures var r := LoadedState(st, documentId, replies);
      r.error.None? && ScreenOf(r.loading, r.error, r.lockStatus) == Workspace &&
      r.originalContent == st.originalContent && r.aiDraftContent == st.aiDraftContent
  {
  }

  /** With the lock held and the versions read, the panes show the original tagged as
      "original" and the AI draft (else the original) tagged as "ai-draft" and as "editor". */
  lemma VersionsFillPanes(st: SessionState, documentId: Option<int>, replies: LoadReplies, doc: seq<DomNode>)
    requires HasDocumentId(documentId) && replies.document.Ok?
    requires LockDecision(replies.acquire, replies.lockStatus).Editable? && replies.versions.Ok?
    ensures var versions := replies.versions.value;
      var r := LoadedState(st, documentId, replies);
      r.error.None? && ScreenOf(r.loading, r.error, r.lockStatus) == Workspace && r.countPending &&
      (FindVersion(versions, ORIGINAL).Some? ==>
        r.originalContent == Annotated(FindVersion(versions, ORIGINAL).value.content, ORIGINAL_PANE)) &&
      (FindVersion(versions, AI_DRAFT).Some? ==>
        r.aiDraftContent == Annotated(FindVersion(versions, AI_DRAFT).value.content, AI_DRAFT_PANE) &&
        EditorAfterLoad(doc, documentId, replies, true) == Annotated(FindVersion(versions, AI_DRAFT).value.content, EDITOR_PANE)) &&
      (FindVersion(versions, AI_DRAFT).None? && FindVersion(versions, ORIGINAL).Some? ==>
        r.aiDraftContent == Annotated(FindVersion(versions, ORIGINAL).value.content, AI_DRAFT_PANE) &&
        EditorAfterLoad(doc, documentId, replies, true) == Annotated(FindVersion(versions, ORIGINAL).value.content, EDITOR_PANE))
  {
    var lock := LockDecision(replies.acquire, replies.lockStatus).status;
    assert LoadedState(st, documentId, replies).lockStatus == Some(lock);
  }

  // ---------------------------------------------------------------------------------------
  // The editor and the session
  // ---------------------------------------------------------------------------------------

  /** The rich-text editor: its document, as the element it renders, and its caret. */
  class Editor {
    const view: Container
    var from: nat

    constructor (view: Container)
      ensures this.view == view && from == 0
    {
      this.view := view;
      from := 0;
    }
  }

  /** `updateParagraphIds`, run by the 300 ms debounce after an edit. `mounted` says whether the
      editor's element is in the page. When the content is replaced, the caret position to
      restore 10 ms later is returned. */
  method UpdateParagraphIds(editor: Editor, mounted: bool) returns (restoreFrom: Option<nat>)
    modifies editor.view`nodes
    ensures restoreFrom.Some? <==> mounted && NeedsReindex(old(editor.view.nodes))
    ensures restoreFrom.Some? ==> restoreFrom.value == editor.from
    ensures editor.view.nodes == if restoreFrom.Some? then Annotated(old(editor.view.nodes), EDITOR_PANE) else old(editor.view.nodes)
  {
    restoreFrom := None;
    var html := editor.view.nodes;
    if mounted && forall p :: 0 <= p < |html| ==> !HasIndexAttribute(html[p]) {
      var processed := ExtractParagraphs(html, EDITOR_PANE);
      if html != processed {
        restoreFrom := Some(editor.from);
        editor.view.nodes := processed;
      }
    }
  }

  /** The 10 ms caret timer: the caret goes to `min(from, size)` of the new document, or stays
      where it is if setting it fails. */
  method RestoreCaret(editor: Editor, from: nat, size: nat, fails: bool)
    modifies editor`from
    ensures editor.from == if fails then old(editor.from) else CaretAfter(from, size)
  {
    if !fails {
      editor.from := CaretAfter(from, size);
    }
  }

  /** The `forEach` of `syncScroll`: every panel that can scroll goes to `ratio` of its range. */
  method ScrollPanels(targets: seq<Container>, ratio: real)
    modifies targets`scrollTop
    ensures forall t :: t in targets ==> t.scrollTop == SyncedScrollTop(ratio, old(t.scrollTop), t.scrollHeight, t.clientHeight)
  {
    for i := 0 to |targets|
      invariant forall t :: t in targets[..i] ==>
        t.scrollTop == SyncedScrollTop(ratio, old(t.scrollTop), t.scrollHeight, t.clientHeight)
      invariant forall t :: t in targets && t !in targets[..i] ==> t.scrollTop == old(t.scrollTop)
    {
      var panel := targets[i];
      assert panel.scrollTop == old(panel.scrollTop) || panel.scrollTop == SyncedScrollTop(ratio, old(panel.scrollTop), panel.scrollHeight, panel.clientHeight);
      var panelMaxScroll := panel.scrollHeight - panel.clientHeight;
      if panelMaxScroll > 0.0 {
        panel.scrollTop := ratio * panelMaxScroll;
      }
      assert targets[..i + 1] == targets[..i] + [panel];
    }
    assert targets[..|targets|] == targets;
  }

  /** The page's state, with one method per event. */
  class Session {
    const documentId: Option<int>
    var loading: bool
    var error: Option<string>
    var lockStatus: Option<LockStatus>
    var document: Option<DocumentInfo>
    var originalContent: seq<DomNode>
    var aiDraftContent: seq<DomNode>
    var completedParagraphs: seq<Option<int>>
    var progressCompleted: nat
    var progressTotal: nat
    var highlighted: Option<Option<int>>
    var showHandoverModal: bool
    var handoverMemo: string
    var handoverTerms: string
    /** `isScrollingRef.current` */
    var isScrolling: bool
    /** The 100 ms paragraph-count timer has been set. */
    var countPending: bool

    function State(): SessionState
      reads this
    {
      SessionState(loading, error, lockStatus, document, originalContent, aiDraftContent,
        completedParagraphs, progressCompleted, progressTotal, highlighted, showHandoverModal,
        handoverMemo, handoverTerms, isScrolling, countPending)
    }

    /** The completed set holds each index once, and the progress readout counts it. */
    predicate Valid()
      reads this
    {
      NoDup(completedParagraphs) && progressCompleted == |completedParagraphs|
    }

    /** The page opened at `/translations/:id` with the route parameter `routeId`. */
    constructor (routeId: Option<string>)
      ensures documentId == RouteDocumentId(routeId)
      ensures State() == INITIAL_SESSION && Valid()
    {
      documentId := RouteDocumentId(routeId);
      loading, error, lockStatus, document := true, None, None, None;
      originalContent, aiDraftContent := [], [];
      completedParagraphs, progressCompleted, progressTotal := [], 0, 0;
      highlighted, showHandoverModal, handoverMemo, handoverTerms := None, false, "", "";
      isScrolling, countPending := false, false;
    }

    /** `loadData` ran to its end with these replies; `editorReady` says whether the editor exists. */
    method Load(replies: LoadReplies, editorReady: bool, editor: Editor)
      modifies this, editor.view`nodes
      ensures State() == LoadedState(old(State()), documentId, replies)
      ensures editor.view.nodes == EditorAfterLoad(old(editor.view.nodes), documentId, replies, editorReady)
    {
      if !HasDocumentId(documentId) {
        error := Some(NO_DOCUMENT_ID);
        loading := false;
        return;
      }
      LoadDocument(replies, editorReady, editor);
    }

    /** `loadData` once a document id is present: the document, the lock check and the versions. */
    method LoadDocument(replies: LoadReplies, editorReady: bool, editor: Editor)
      requires HasDocumentId(documentId)
      modifies this, editor.view`nodes
      ensures State() == LoadedState(old(State()), documentId, replies)
      ensures editor.view.nodes == EditorAfterLoad(old(editor.view.nodes), documentId, replies, editorReady)
    {
      loading, error := true, None;
      match replies.document {
        case Failed(e) =>
          error := Some(LoadErrorMessage(e));
          loading := false;
          return;
        case Ok(doc) =>
          document := Some(doc);
          assert State() == old(State()).(loading := true, error := None, document := Some(doc));
      }
      CheckLockAndLoadVersions(replies, editorReady, editor);
      ghost var after := State();
      loading := false;
      assert State() == after.(loading := false);
    }

    /** The lock check of `loadData`, then the versions when editing is allowed. */
    method CheckLockAndLoadVersions(replies: LoadReplies, editorReady: bool, editor: Editor)
      modifies this`lockStatus, this`error, this`originalContent, this`aiDraftContent, this`countPending
      modifies editor.view`nodes
      ensures State() == AfterLock(old(State()), replies)
      ensures editor.view.nodes ==
        if LockDecision(replies.acquire, replies.lockStatus).Editable? && replies.versions.Ok? &&
           editorReady && DraftSource(replies.versions.value).Some?
        then Annotated(DraftSource(replies.versions.value).value.content, EDITOR_PANE)
        else old(editor.view.nodes)
    {
      match LockDecision(replies.acquire, replies.lockStatus) {
        case LockedOut(lock) =>
          lockStatus := Some(lock);
          error := Some(BusyMessage(lock.lockedBy));
          return;
        case LockError(e) =>
          error := Some(LoadErrorMessage(e));
          return;
        case Editable(lock) =>
          lockStatus := Some(lock);
      }
      if replies.versions.Ok? {
        LoadVersions(replies.versions.value, editorReady, editor);
      }
    }

    /** The part of `loadData` after the versions arrived. */
    method LoadVersions(versions: seq<Version>, editorReady: bool, editor: Editor)
      modifies this`originalContent, this`aiDraftContent, this`countPending, editor.view`nodes
      ensures State() == WithVersions(old(State()), versions)
      ensures editor.view.nodes == if editorReady && DraftSource(versions).Some?
                                   then Annotated(DraftSource(versions).value.content, EDITOR_PANE)
                                   else old(editor.view.nodes)
    {
      var original := FindVersion(versions, ORIGINAL);
      if original.Some? {
        originalContent := ExtractParagraphs(original.value.content, ORIGINAL_PANE);
      }
      var draft := FindVersion(versions, AI_DRAFT);
      if draft.Some? {
        aiDraftContent := ExtractParagraphs(draft.value.content, AI_DRAFT_PANE);
        if editorReady {
          editor.view.nodes := ExtractParagraphs(draft.value.content, EDITOR_PANE);
        }
      } else if original.Some? {
        aiDraftContent := ExtractParagraphs(original.value.content, AI_DRAFT_PANE);
        if editorReady {
          editor.view.nodes := ExtractParagraphs(original.value.content, EDITOR_PANE);
        }
      }
      countPending := true;
    }

    /** The 100 ms timer after the versions loaded: the total is the original pane's paragraph count. */
    method CountTimerFired(original: Container)
      modifies this`progressTotal, this`countPending
      ensures old(countPending) ==> State() == old(State()).(progressTotal := |Paragraphs(original.nodes)|, countPending := false)
      ensures !old(countPending) ==> State() == old(State())
    {
      if countPending {
        var paragraphs := GetParagraphs(original);
        progressTotal := |paragraphs|;
        countPending := false;
      }
    }

    /** `syncScroll(sourcePanel, targetPanels)`: ignored while a sync is in progress; otherwise
        the targets follow the source's scroll ratio and the paragraph at the source's position
        becomes the highlighted one. Only the 50 ms timer clears the flag again. */
    method SyncScroll(source: Container, targets: seq<Container>)
      requires source !in targets
      modifies this`isScrolling, this`highlighted, targets`scrollTop
      ensures old(isScrolling) ==> State() == old(State()) && forall t :: t in targets ==> t.scrollTop == old(t.scrollTop)
      ensures !old(isScrolling) ==>
        State() == old(State()).(isScrolling := true,
          highlighted := HighlightAfterScroll(AtScrollPosition(source.nodes, source.layout, source.top, source.scrollTop, source.scrollTop), old(highlighted)))
      ensures !old(isScrolling) ==> forall t :: t in targets ==>
        t.scrollTop == SyncedScrollTop(ScrollRatio(source.scrollTop, source.scrollHeight, source.clientHeight),
                                       old(t.scrollTop), t.scrollHeight, t.clientHeight)
    {
      if isScrolling {
        return;
      }
      isScrolling := true;
      var scrollRatio := ScrollRatio(source.scrollTop, source.scrollHeight, source.clientHeight);
      ScrollPanels(targets, scrollRatio);
      HighlightAtScroll(source);
    }

    /** The end of `syncScroll`: the paragraph at the source's position becomes the highlighted one. */
    method HighlightAtScroll(source: Container)
      modifies this`highlighted
      ensures State() == old(State()).(highlighted :=
        HighlightAfterScroll(AtScrollPosition(source.nodes, source.layout, source.top, source.scrollTop, source.scrollTop), old(highlighted)))
    {
      var currentPara := GetParagraphAtScrollPosition(source, source.scrollTop);
      if currentPara.Some? {
        highlighted := Some(currentPara.value.index);
      }
    }

    /** The 50 ms timer set by a sync. */
    method ScrollTimerFired()
      modifies this`isScrolling
      ensures State() == old(State()).(isScrolling := false)
    {
      isScrolling := false;
    }

    /** `handleParagraphHover(index)`, from the mouse over or a click on a paragraph. */
    method Hover(index: Option<int>)
      modifies this`highlighted
      ensures State() == old(State()).(highlighted := Some(index))
    {
      highlighted := Some(index);
    }

    /** The styling effect as written, run when the highlighted index or the completed set
        changes, on the two panes and (when it is in the page) the editor's element. */
    method ApplyStylesAsWritten(original: Container, aiDraft: Container, editorView: Container, editorMounted: bool)
      requires original != aiDraft && original != editorView && aiDraft != editorView
      modifies original`nodes, aiDraft`nodes, editorView`nodes
      ensures original.nodes == StyledAsWritten(old(original.nodes), highlighted, completedParagraphs)
      ensures aiDraft.nodes == StyledAsWritten(old(aiDraft.nodes), highlighted, completedParagraphs)
      ensures editorView.nodes == if editorMounted then StyledAsWritten(old(editorView.nodes), highlighted, completedParagraphs)
                                  else old(editorView.nodes)
    {
      ApplyParagraphStylesAsWritten(original, highlighted, completedParagraphs);
      ApplyParagraphStylesAsWritten(aiDraft, highlighted, completedParagraphs);
      if editorMounted {
        ApplyParagraphStylesAsWritten(editorView, highlighted, completedParagraphs);
      }
    }

    /** The styling effect with the corrected clearing of `ApplyParagraphStyles`. */
    method ApplyStyles(original: Container, aiDraft: Container, editorView: Container, editorMounted: bool)
      requires original != aiDraft && original != editorView && aiDraft != editorView
      modifies original`nodes, aiDraft`nodes, editorView`nodes
      ensures original.nodes == StyledCorrected(old(original.nodes), highlighted, completedParagraphs)
      ensures aiDraft.nodes == StyledCorrected(old(aiDraft.nodes), highlighted, completedParagraphs)
      ensures editorView.nodes == if editorMounted then StyledCorrected(old(editorView.nodes), highlighted, completedParagraphs)
                                  else old(editorView.nodes)
    {
      ApplyParagraphStyles(original, highlighted, completedParagraphs);
      ApplyParagraphStyles(aiDraft, highlighted, completedParagraphs);
      if editorMounted {
        ApplyParagraphStyles(editorView, highlighted, completedParagraphs);
      }
    }

    /** `toggleParagraphComplete(index)` together with the progress effect. */
    method Toggle(index: Option<int>)
      requires Valid()
      modifies this`completedParagraphs, this`progressCompleted
      ensures Valid()
      ensures State() == old(State()).(completedParagraphs := Toggled(old(completedParagraphs), index),
                                       progressCompleted := |Toggled(old(completedParagraphs), index)|)
    {
      completedParagraphs := Toggled(completedParagraphs, index);
      progressCompleted := |completedParagraphs|;
    }

    /** The completion checkbox, shown only while a paragraph is highlighted, toggles that one. */
    method CheckHighlighted()
      requires Valid() && highlighted.Some?
      modifies this`completedParagraphs, this`progressCompleted
      ensures Valid()
      ensures State() == old(State()).(completedParagraphs := Toggled(old(completedParagraphs), old(highlighted).value),
                                       progressCompleted := |Toggled(old(completedParagraphs), old(highlighted).value)|)
    {
      Toggle(highlighted.value);
    }

    /** The handover button. */
    method OpenHandover()
      modifies this`showHandoverModal
      ensures State() == old(State()).(showHandoverModal := true)
    {
      showHandoverModal := true;
    }

    method EditMemo(memo: string)
      modifies this`handoverMemo
      ensures State() == old(State()).(handoverMemo := memo)
    {
      handoverMemo := memo;
    }

    method EditTerms(terms: string)
      modifies this`handoverTerms
      ensures State() == old(State()).(handoverTerms := terms)
    {
      handoverTerms := terms;
    }

    /** A click on the backdrop closes the dialog and keeps what was typed. */
    method DismissHandover()
      modifies this`showHandoverModal
      ensures State() == old(State()).(showHandoverModal := false)
    {
      showHandoverModal := false;
    }

    /** The cancel button closes the dialog and clears both notes. */
    method CancelHandover()
      modifies this`showHandoverModal, this`handoverMemo, this`handoverTerms
      ensures State() == old(State()).(showHandoverModal := false, handoverMemo := "", handoverTerms := "")
    {
      showHandoverModal, handoverMemo, handoverTerms := false, "", "";
    }

    /** `confirmHandover`'s checks: the request to send, or the alert asking for a memo. */
    method ConfirmHandover() returns (request: Option<HandoverRequest>, alert: Option<string>)
      ensures request == HandoverPayload(documentId, handoverMemo, handoverTerms, completedParagraphs)
      ensures alert.Some? <==> request.None?
      ensures alert.Some? ==> alert.value == MEMO_REQUIRED
    {
      if !HasDocumentId(documentId) || Trim(handoverMemo) == "" {
        return None, Some(MEMO_REQUIRED);
      }
      var terms := Trim(handoverTerms);
      request := Some(HandoverRequest(documentId.value, Trim(handoverMemo), if terms == "" then None else Some(terms), completedParagraphs));
      alert := None;
    }

    /** The 2 s autosave timer after an edit or a toggle. */
    method AutosaveTimerFired(editorReady: bool, editor: Editor) returns (request: Option<SaveRequest>)
      ensures request == AutosavePayload(documentId, editorReady, editor.view.nodes, completedParagraphs)
    {
      if !editorReady || !HasDocumentId(documentId) {
        return None;
      }
      request := Some(SaveRequest(documentId.value, editor.view.nodes, completedParagraphs));
    }

    /** `handleComplete`; `confirmed` is the answer to the confirmation dialog. */
    method HandleComplete(editorReady: bool, confirmed: bool, editor: Editor) returns (request: Option<SaveRequest>)
      ensures request == CompletePayload(documentId, editorReady, confirmed, editor.view.nodes, completedParagraphs)
    {
      if !HasDocumentId(documentId) || !editorReady {
        return None;
      }
      if !confirmed {
        return None;
      }
      request := Some(SaveRequest(documentId.value, editor.view.nodes, completedParagraphs));
    }
  }
}
