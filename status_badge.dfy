/**
 * The document status badge: a label and a pair of colors for each document state.
 */
module StatusBadge {
  import opened Wrappers

  /** `DocumentState` */
  datatype DocumentState = Draft | PendingTranslation | InTranslation | PendingReview | Approved | Published

  const ALL_STATES: seq<DocumentState> :=
    [Draft, PendingTranslation, InTranslation, PendingReview, Approved, Published]

  /** The state's name on the wire. */
  function StateName(s: DocumentState): string {
    match s
    case Draft => "DRAFT"
    case PendingTranslation => "PENDING_TRANSLATION"
    case InTranslation => "IN_TRANSLATION"
    case PendingReview => "PENDING_REVIEW"
    case Approved => "APPROVED"
    case Published => "PUBLISHED"
  }

  /** The state a wire name stands for; `None` for any other string. */
  function ParseState(name: string): (r: Option<DocumentState>)
    ensures r.Some? ==> StateName(r.value) == name
  {
    if name == "DRAFT" then Some(Draft)
    else if name == "PENDING_TRANSLATION" then Some(PendingTranslation)
    else if name == "IN_TRANSLATION" then Some(InTranslation)
    else if name == "PENDING_REVIEW" then Some(PendingReview)
    else if name == "APPROVED" then Some(Approved)
    else if name == "PUBLISHED" then Some(Published)
    else None
  }

  lemma ParseStateName(s: DocumentState)
    ensures ParseState(StateName(s)) == Some(s)
  {
    match s
    case Draft =>
    case PendingTranslation =>
    case InTranslation =>
    case PendingReview =>
    case Approved =>
    case Published =>
  }

  /** `statusLabels` */
  function StatusLabel(s: DocumentState): (r: string)
    ensures r != "" && r[0] != ' ' && r[|r| - 1] != ' '
  {
    match s
    case Draft => "초안"
    case PendingTranslation => "번역 대기"
    case InTranslation => "번역 중"
    case PendingReview => "검토 중"
    case Approved => "승인 완료"
    case Published => "게시 완료"
  }

  datatype BadgeColors = BadgeColors(bg: string, text: string)

  /** A CSS colour written `#RRGGBB` with upper-case hex digits. */
  predicate IsHexColor(c: string) {
    |c| == 7 && c[0] == '#' && forall i :: 1 <= i < 7 ==> ('0' <= c[i] <= '9' || 'A' <= c[i] <= 'F')
  }

  /** `statusStyles` */
  function StatusStyle(s: DocumentState): (r: BadgeColors)
    ensures IsHexColor(r.bg) && IsHexColor(r.text) && r.bg != r.text
  {
    match s
    case Draft => BadgeColors("#E5E7EB", "#4B5563")
    case PendingTranslation => BadgeColors("#DBEAFE", "#1D4ED8")
    case InTranslation => BadgeColors("#FFEDD5", "#C2410C")
    case PendingReview => BadgeColors("#EDE9FE", "#5B21B6")
    case Approved => BadgeColors("#D1FAE5", "#047857")
    case Published => BadgeColors("#CCFBF1", "#0F766E")
  }

  /** The rendered `span`: its text and the two colors of its inline style. */
  datatype Badge = Badge(caption: string, backgroundColor: string, color: string)

  /** `StatusBadge({ status })` */
  function RenderBadge(status: DocumentState): (b: Badge)
    ensures b.caption == StatusLabel(status)
    ensures b.backgroundColor == StatusStyle(status).bg && b.color == StatusStyle(status).text
  {
    var style := StatusStyle(status);
    Badge(StatusLabel(status), style.bg, style.text)
  }

  /** Which state a badge label shows; `None` for a string that is no state's label. */
  function StateOfLabel(caption: string): (r: Option<DocumentState>)
    ensures r.Some? ==> StatusLabel(r.value) == caption
  {
    if caption == "초안" then Some(Draft)
    else if caption == "번역 대기" then Some(PendingTranslation)
    else if caption == "번역 중" then Some(InTranslation)
    else if caption == "검토 중" then Some(PendingReview)
    else if caption == "승인 완료" then Some(Approved)
    else if caption == "게시 완료" then Some(Published)
    else None
  }

  /** A badge's label tells its state: reading the state back from the label gives it. */
  lemma LabelIdentifiesState(s: DocumentState)
    ensures StateOfLabel(StatusLabel(s)) == Some(s)
  {
    match s
    case Draft =>
    case PendingTranslation =>
    case InTranslation =>
    case PendingReview =>
    case Approved =>
    case Published =>
  }

  /** Different states get badges that differ in label, background and text color. */
  lemma BadgesDistinct(a: DocumentState, b: DocumentState)
    requires a != b
    ensures RenderBadge(a).caption != RenderBadge(b).caption
    ensures RenderBadge(a).backgroundColor != RenderBadge(b).backgroundColor
    ensures RenderBadge(a).color != RenderBadge(b).color
  {
    LabelIdentifiesState(a);
    LabelIdentifiesState(b);
    match a
    case Draft =>
    case PendingTranslation =>
    case InTranslation =>
    case PendingReview =>
    case Approved =>
    case Published =>
  }
}
