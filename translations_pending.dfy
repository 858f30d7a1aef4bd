/**
 * The queue of documents waiting for translation: turning a fetched document into a list
 * row (deadline, category and relative-time labels), keeping only the pending documents,
 * and the category and priority filters and the sort over the rows.
 */
module TranslationsPending {
  import opened Wrappers
  import opened Strings
  import opened Seqs

  const MINUTE_MS := 60000
  const HOUR_MS := 3600000
  const DAY_MS := 86400000
  /** Rows are due seven days after the document was created. */
  const DEADLINE_MS := 7 * DAY_MS

  /** The "no filter" entry of both filter lists. */
  const ALL := "전체"
  const CATEGORIES: seq<string> := ["전체", "웹사이트", "마케팅", "고객지원", "기술문서"]
  const PRIORITIES: seq<string> := ["전체", "높음", "보통", "낮음"]

  const PENDING_TRANSLATION := "PENDING_TRANSLATION"
  const EXPIRED := "마감됨"
  const UNCATEGORIZED := "미분류"

  datatype Priority = High | Medium | Low

  /** `priorityLabels` */
  function PriorityLabel(p: Priority): string {
    match p
    case High => "높음"
    case Medium => "보통"
    case Low => "낮음"
  }

  /** `priorityMap[selectedPriority]`; `None` (undefined) for any other label. */
  function PriorityOfLabel(s: string): (r: Option<Priority>)
    ensures r.Some? ==> PriorityLabel(r.value) == s
  {
    if s == "높음" then Some(High)
    else if s == "보통" then Some(Medium)
    else if s == "낮음" then Some(Low)
    else None
  }

  /** The priority filter's labels and the table's labels are one and the same map. */
  lemma PriorityLabelsRoundTrip(p: Priority)
    ensures PriorityOfLabel(PriorityLabel(p)) == Some(p)
    ensures PriorityLabel(p) in PRIORITIES[1..]
  {
    match p
    case High =>
    case Medium =>
    case Low =>
  }

  /** `DocumentResponse`; times are milliseconds since the epoch, the status is its wire name. */
  datatype DocumentResponse = DocumentResponse(
    id: int,
    title: string,
    status: string,
    categoryId: Option<int>,
    estimatedLength: Option<int>,
    createdAt: int,
    updatedAt: Option<int>,
    lastModifiedBy: Option<string>,
    originalUrl: Option<string>)

  /** `DocumentListItem` */
  datatype DocumentListItem = DocumentListItem(
    id: int,
    title: string,
    category: string,
    categoryId: Option<int>,
    estimatedLength: Option<int>,
    progress: int,
    deadline: string,
    priority: Priority,
    status: string,
    lastModified: Option<string>,
    assignedManager: Option<string>,
    isFinal: bool,
    originalUrl: Option<string>)

  // ---------------------------------------------------------------------------------------
  // Labels
  // ---------------------------------------------------------------------------------------

  /** `formatRelativeTime`: whole minutes under an hour, whole hours under a day, else whole
      days (each rounded down). */
  function FormatRelativeTime(updatedAt: int, now: int): (r: string)
    ensures |r| >= 3 && r[|r| - 2..] == " 전"
    ensures r[|r| - 3] == '분' <==> now - updatedAt < HOUR_MS
    ensures r[|r| - 3] == '일' <==> DAY_MS <= now - updatedAt
  {
    var diffMs := now - updatedAt;
    var diffMins := diffMs / MINUTE_MS;
    var diffHours := diffMs / HOUR_MS;
    var diffDays := diffMs / DAY_MS;
    assert diffMins < 60 <==> diffMs < HOUR_MS;
    assert diffHours < 24 <==> diffMs < DAY_MS;
    if diffMins < 60 then IntToString(diffMins) + "분 전"
    else if diffHours < 24 then IntToString(diffHours) + "시간 전"
    else IntToString(diffDays) + "일 전"
  }

  /** The unit is chosen by the elapsed time alone, and the amount shown is in its range. */
  lemma RelativeTimeBands(updatedAt: int, now: int)
    ensures now - updatedAt < HOUR_MS ==>
      FormatRelativeTime(updatedAt, now) == IntToString((now - updatedAt) / MINUTE_MS) + "분 전" &&
      (now - updatedAt) / MINUTE_MS < 60
    ensures HOUR_MS <= now - updatedAt < DAY_MS ==>
      FormatRelativeTime(updatedAt, now) == IntToString((now - updatedAt) / HOUR_MS) + "시간 전" &&
      1 <= (now - updatedAt) / HOUR_MS < 24
    ensures DAY_MS <= now - updatedAt ==>
      FormatRelativeTime(updatedAt, now) == IntToString((now - updatedAt) / DAY_MS) + "일 전" &&
      1 <= (now - updatedAt) / DAY_MS
  {
    var d := now - updatedAt;
    assert d / MINUTE_MS < 60 <==> d < HOUR_MS;
    assert d / HOUR_MS < 24 <==> d < DAY_MS;
    if HOUR_MS <= d {
      assert 1 <= d / HOUR_MS;
    }
    if DAY_MS <= d {
      assert 1 <= d / DAY_MS;
    }
  }

  /** `Math.ceil((createdAt + 7 days - now) / 1 day)` */
  function DeadlineDays(createdAt: int, now: int): (days: int)
    ensures (days - 1) * DAY_MS < createdAt + DEADLINE_MS - now <= days * DAY_MS
  {
    -((now - createdAt - DEADLINE_MS) / DAY_MS)
  }

  /** `diffDays > 0 ? \`${diffDays}일 후\` : '마감됨'` */
  function DeadlineLabel(createdAt: int, now: int): (r: string)
    ensures r == EXPIRED <==> DeadlineDays(createdAt, now) <= 0
    ensures r != EXPIRED ==> |r| > 3 && r[|r| - 3..] == "일 후"
  {
    var days := DeadlineDays(createdAt, now);
    if days > 0 then
      var n := IntToString(days);
      assert (n + "일 후")[|n + "일 후"| - 3..] == "일 후";
      n + "일 후"
    else EXPIRED
  }

  /** A row reads "마감됨" exactly when seven days have passed since the document was created. */
  lemma DeadlineExpired(createdAt: int, now: int)
    ensures DeadlineLabel(createdAt, now) == EXPIRED <==> now >= createdAt + DEADLINE_MS
  {
  }

  /** `doc.categoryId ? \`카테고리 ${doc.categoryId}\` : '미분류'`: id 0 counts as none. */
  function CategoryLabel(categoryId: Option<int>): (s: string)
    ensures categoryId.None? || categoryId == Some(0) ==> s == UNCATEGORIZED
  {
    if categoryId.Some? && categoryId.value != 0 then "카테고리 " + IntToString(categoryId.value)
    else UNCATEGORIZED
  }

  /** No row's category label is one of the named categories of the filter list. */
  lemma CategoryLabelNotNamed(categoryId: Option<int>)
    ensures CategoryLabel(categoryId) !in CATEGORIES
  {
    var s := CategoryLabel(categoryId);
    if categoryId.Some? && categoryId.value != 0 {
      assert s[..5] == "카테고리 ";
      assert forall c :: c in CATEGORIES ==> |c| < 5 || c[..5] != "카테고리 ";
    }
  }

  /** `convertToDocumentListItem(doc)` with the clock reading `now`. */
  function ConvertToDocumentListItem(doc: DocumentResponse, now: int): (item: DocumentListItem)
    ensures item.id == doc.id && item.status == doc.status && item.categoryId == doc.categoryId
    ensures item.lastModified.Some? <==> doc.updatedAt.Some?
  {
    DocumentListItem(
      doc.id, doc.title, CategoryLabel(doc.categoryId), doc.categoryId, doc.estimatedLength,
      0, DeadlineLabel(doc.createdAt, now), Medium, doc.status,
      if doc.updatedAt.Some? then Some(FormatRelativeTime(doc.updatedAt.value, now)) else None,
      doc.lastModifiedBy, false, doc.originalUrl)
  }

  /** The row's action button: label and variant. */
  function ActionLabel(item: DocumentListItem): (r: string)
    ensures r == "번역 시작" <==> item.progress == 0
    ensures r == "번역 시작" || r == "이어하기"
  {
    if item.progress == 0 then "번역 시작" else "이어하기"
  }

  datatype ButtonVariant = Primary | Secondary

  /** The primary button is exactly the one that offers to start translating. */
  function ActionVariant(item: DocumentListItem): (r: ButtonVariant)
    ensures r == Primary <==> ActionLabel(item) == "번역 시작"
  {
    if item.progress == 0 then Primary else Secondary
  }

  /** Every converted row has no progress and medium priority, so it offers to start translating. */
  lemma ConvertedRowStarts(doc: DocumentResponse, now: int)
    ensures var item := ConvertToDocumentListItem(doc, now);
      item.progress == 0 && item.priority == Medium && !item.isFinal &&
      ActionLabel(item) == "번역 시작" && ActionVariant(item) == Primary
  {
  }

  // ---------------------------------------------------------------------------------------
  // The fetch
  // ---------------------------------------------------------------------------------------

  predicate IsPending(doc: DocumentResponse) {
    doc.status == PENDING_TRANSLATION
  }

  /** The rows `fetchDocuments` stores: the pending documents, converted, in response order. */
  function PendingRows(response: seq<DocumentResponse>, now: int): (rows: seq<DocumentListItem>)
    ensures |rows| == |Filter(response, IsPending)|
    ensures forall i :: 0 <= i < |rows| ==> rows[i] == ConvertToDocumentListItem(Filter(response, IsPending)[i], now)
  {
    var pending := Filter(response, IsPending);
    seq(|pending|, i requires 0 <= i < |pending| => ConvertToDocumentListItem(pending[i], now))
  }

  /** Every row comes from a pending document of the response, taken in order, and every
      pending document gives a row. */
  lemma PendingRowsFromPending(response: seq<DocumentResponse>, now: int)
    ensures forall i :: 0 <= i < |PendingRows(response, now)| ==> PendingRows(response, now)[i].status == PENDING_TRANSLATION
    ensures IsSubsequenceOf(Filter(response, IsPending), response)
    ensures forall d :: d in response && IsPending(d) ==> ConvertToDocumentListItem(d, now) in PendingRows(response, now)
  {
    var pending := Filter(response, IsPending);
    FilterIsSubsequence(response, IsPending);
    forall i | 0 <= i < |pending| ensures pending[i].status == PENDING_TRANSLATION {
      assert pending[i] in pending;
    }
    forall d | d in response && IsPending(d) ensures ConvertToDocumentListItem(d, now) in PendingRows(response, now) {
      FilterMembership(response, IsPending, d);
      var i :| 0 <= i < |pending| && pending[i] == d;
      assert PendingRows(response, now)[i] == ConvertToDocumentListItem(d, now);
    }
  }

  /** What the request gave: the documents, an `Error` with its message, or something else thrown. */
  datatype FetchOutcome = Fetched(docs: seq<DocumentResponse>) | FailedWithError(message: string) | FailedOther

  const LOAD_FAILED := "문서 목록을 불러오는데 실패했습니다"

  function FetchErrorMessage(outcome: FetchOutcome): (m: Option<string>)
    ensures m.None? <==> outcome.Fetched?
  {
    match outcome
    case Fetched(_) => None
    case FailedWithError(message) => Some(LOAD_FAILED + ": " + message)
    case FailedOther => Some(LOAD_FAILED + ".")
  }

  // ---------------------------------------------------------------------------------------
  // Filters and sort
  // ---------------------------------------------------------------------------------------

  datatype SortField = DeadlineField | ProgressField | OtherField(name: string)
  datatype SortOrder = Asc | Desc
  datatype SortOption = SortOption(field: SortField, order: SortOrder)

  const DEFAULT_SORT := SortOption(DeadlineField, Asc)

  /** The position of the first `-` in `s`, or `|s|` when there is none. */
  function DashAt(s: string): (k: nat)
    ensures k <= |s| && (k < |s| ==> s[k] == '-')
    ensures forall i :: 0 <= i < k ==> s[i] != '-'
  {
    if s == [] || s[0] == '-' then 0 else 1 + DashAt(s[1..])
  }

  function FieldOfName(name: string): SortField {
    if name == "deadline" then DeadlineField
    else if name == "progress" then ProgressField
    else OtherField(name)
  }

  function FieldName(f: SortField): string {
    match f
    case DeadlineField => "deadline"
    case ProgressField => "progress"
    case OtherField(name) => name
  }

  /** The sort menu's value for an option: `${field}-${order}`. */
  function SortValue(option: SortOption): string {
    FieldName(option.field) + "-" + (if option.order == Asc then "asc" else "desc")
  }

  /** `const [field, order] = value.split('-')`: the pieces before the first and the second dash.
      Only an order of exactly 'asc' sorts ascending; anything else, `undefined` included,
      takes the descending branch of the comparator. */
  function SortOptionOfValue(value: string): (option: SortOption)
    ensures option.field == FieldOfName(value[..DashAt(value)])
  {
    var k := DashAt(value);
    var rest := if k < |value| then value[k + 1..] else "";
    var order := if k < |value| then rest[..DashAt(rest)] else "";
    SortOption(FieldOfName(value[..k]), if order == "asc" then Asc else Desc)
  }

  lemma {:induction false} DashAfter(name: string, rest: string)
    requires forall i :: 0 <= i < |name| ==> name[i] != '-'
    ensures DashAt(name + "-" + rest) == |name|
  {
    if name != [] {
      assert (name + "-" + rest)[1..] == name[1..] + "-" + rest;
      DashAfter(name[1..], rest);
    }
  }

  /** A menu value `field-order` selects that field and order. */
  lemma SortValueSelects(name: string, ascending: bool)
    requires forall i :: 0 <= i < |name| ==> name[i] != '-'
    ensures var order := if ascending then "asc" else "desc";
      SortOptionOfValue(name + "-" + order) == SortOption(FieldOfName(name), if ascending then Asc else Desc)
  {
    var order := if ascending then "asc" else "desc";
    var value := name + "-" + order;
    DashAfter(name, order);
    assert value[..|name|] == name;
    assert value[|name| + 1..] == order;
    assert DashAt(order) == |order|;
  }

  /** A known field's menu value shows again as itself once selected. */
  lemma SortValueRoundTrip(name: string, ascending: bool)
    requires name == "deadline" || name == "progress"
    ensures var value := name + "-" + (if ascending then "asc" else "desc");
      SortValue(SortOptionOfValue(value)) == value
  {
    SortValueSelects(name, ascending);
  }

  /** The menu's three values: deadline ascending (the initial option), and progress ascending
      and descending. */
  lemma DeadlineMenuOption()
    ensures SortOptionOfValue("deadline-asc") == DEFAULT_SORT
  {
    SortValueSelects("deadline", true);
    assert "deadline" + "-" + "asc" == "deadline-asc";
  }

  lemma ProgressMenuOptions()
    ensures SortOptionOfValue("progress-asc") == SortOption(ProgressField, Asc)
    ensures SortOptionOfValue("progress-desc") == SortOption(ProgressField, Desc)
  {
    ProgressMenuOption(true, "progress-asc");
    ProgressMenuOption(false, "progress-desc");
  }

  lemma ProgressMenuOption(ascending: bool, value: string)
    requires value == if ascending then "progress-asc" else "progress-desc"
    ensures SortOptionOfValue(value) == SortOption(ProgressField, if ascending then Asc else Desc)
  {
    var name := "progress";
    var order := if ascending then "asc" else "desc";
    assert forall i :: 0 <= i < |name| ==> name[i] != '-';
    SortValueSelects(name, ascending);
    assert value[..8] == name && value[8] == '-' && value[9..] == order;
    assert value == value[..8] + [value[8]] + value[9..];
  }

  /** `s.replace(pattern, "")`: the first occurrence of `pattern` removed. */
  function RemoveFirst(s: string, pattern: string): (r: string)
    requires pattern != ""
    ensures |r| <= |s|
    ensures !Contains(s, pattern) ==> r == s
    ensures forall i :: OccursAt(s, pattern, i) && (forall j :: 0 <= j < i ==> !OccursAt(s, pattern, j)) ==>
      r == s[..i] + s[i + |pattern|..]
    decreases |s|
  {
    if |s| < |pattern| then s
    else if s[..|pattern|] == pattern then
      assert OccursAt(s, pattern, 0) by { assert s[0..|pattern|] == s[..|pattern|]; }
      s[|pattern|..]
    else
      var rest := RemoveFirst(s[1..], pattern);
      RemoveFirstAbsent(s, pattern, rest);
      RemoveFirstStep(s, pattern, rest);
      [s[0]] + rest
  }

  /** Past a position where the pattern does not start, removing the first occurrence from the
      rest and putting the first character back removes the first occurrence from the whole. */
  lemma RemoveFirstStep(s: string, pattern: string, rest: string)
    requires pattern != "" && |s| >= |pattern| && s[..|pattern|] != pattern
    requires forall i :: OccursAt(s[1..], pattern, i) && (forall j :: 0 <= j < i ==> !OccursAt(s[1..], pattern, j)) ==>
      rest == s[1..][..i] + s[1..][i + |pattern|..]
    ensures forall i :: OccursAt(s, pattern, i) && (forall j :: 0 <= j < i ==> !OccursAt(s, pattern, j)) ==>
      [s[0]] + rest == s[..i] + s[i + |pattern|..]
  {
    forall i | OccursAt(s, pattern, i) && (forall j :: 0 <= j < i ==> !OccursAt(s, pattern, j))
      ensures [s[0]] + rest == s[..i] + s[i + |pattern|..]
    {
      FirstOccurrenceShifts(s, pattern, i);
      assert rest == s[1..][..i - 1] + s[1..][i - 1 + |pattern|..];
      ShiftedRemoval(s, pattern, i, rest);
    }
  }

  /** Without an occurrence in `s`, there is none in `s[1..]` either, and nothing is removed. */
  lemma RemoveFirstAbsent(s: string, pattern: string, rest: string)
    requires s != []
    requires !Contains(s[1..], pattern) ==> rest == s[1..]
    ensures !Contains(s, pattern) ==> [s[0]] + rest == s
  {
    if !Contains(s, pattern) {
      assert [s[0]] + s[1..] == s;
    }
  }

  /** A first occurrence at `i`, not at 0, is the first occurrence at `i - 1` of `s[1..]`. */
  lemma FirstOccurrenceShifts(s: string, pattern: string, i: int)
    requires |s| >= |pattern| && s[..|pattern|] != pattern
    requires OccursAt(s, pattern, i) && forall j :: 0 <= j < i ==> !OccursAt(s, pattern, j)
    ensures 1 <= i && OccursAt(s[1..], pattern, i - 1)
    ensures forall j :: 0 <= j < i - 1 ==> !OccursAt(s[1..], pattern, j)
  {
    assert i != 0 by { assert s[0..|pattern|] == s[..|pattern|]; }
    assert s[1..][i - 1..i - 1 + |pattern|] == s[i..i + |pattern|];
    forall j | 0 <= j < i - 1
      ensures !OccursAt(s[1..], pattern, j)
    {
      if OccursAt(s[1..], pattern, j) {
        assert s[1..][j..j + |pattern|] == s[j + 1..j + 1 + |pattern|];
        assert OccursAt(s, pattern, j + 1);
      }
    }
  }

  lemma ShiftedRemoval(s: string, pattern: string, i: int, rest: string)
    requires 1 <= i && i + |pattern| <= |s|
    requires rest == s[1..][..i - 1] + s[1..][i - 1 + |pattern|..]
    ensures [s[0]] + rest == s[..i] + s[i + |pattern|..]
  {
    assert [s[0]] + s[1..][..i - 1] == s[..i];
    assert s[1..][i - 1 + |pattern|..] == s[i + |pattern|..];
  }

  /** The deadline comparator's number for a row; `None` where `parseInt` gives `NaN`. */
  function DeadlineKey(item: DocumentListItem): (r: Option<int>)
    ensures item.deadline == EXPIRED ==> r.None?
    ensures RemoveFirst(item.deadline, "일 후") == "" ==> r == Some(999)
  {
    ExpiredIsNaN();
    ParseFallback();
    var stripped := RemoveFirst(item.deadline, "일 후");
    ParseInt(if stripped == "" then "999" else stripped)
  }

  /** The `|| '999'` fallback parses to 999. */
  lemma ParseFallback()
    ensures ParseInt("999") == Some(999)
  {
    assert NatToString(9) == "9";
    assert NatToString(99) == NatToString(9) + "9" == "99";
    assert NatToString(999) == NatToString(99) + "9" == "999";
    ParseNatToString(999);
  }

  /** `'마감됨'` holds no `일 후`, so `replace` leaves it as it is. */
  lemma ExpiredKeepsText()
    ensures RemoveFirst(EXPIRED, "일 후") == EXPIRED
  {
    var p := "일 후";
    assert EXPIRED[..|p|] != p by { assert EXPIRED[0] != p[0]; }
    assert RemoveFirst(EXPIRED[1..], p) == EXPIRED[1..];
  }

  /** `parseInt('마감됨'.replace('일 후', ''))` is `NaN`. */
  lemma ExpiredIsNaN()
    ensures RemoveFirst(EXPIRED, "일 후") == EXPIRED
    ensures ParseInt(EXPIRED).None?
  {
    ExpiredKeepsText();
    assert TrimStart(EXPIRED) == EXPIRED by { assert !IsWhitespace(EXPIRED[0]); }
    assert LeadingDigits(EXPIRED) == "" by { assert !IsDigit(EXPIRED[0]); }
  }

  /** A row due in `n` days sorts as `n`; an expired row sorts as `NaN`. */
  lemma DeadlineKeyOfConverted(doc: DocumentResponse, now: int)
    ensures var item := ConvertToDocumentListItem(doc, now);
      var days := DeadlineDays(doc.createdAt, now);
      (days > 0 ==> DeadlineKey(item) == Some(days)) && (days <= 0 ==> DeadlineKey(item).None?)
  {
    var item := ConvertToDocumentListItem(doc, now);
    var days := DeadlineDays(doc.createdAt, now);
    if days > 0 {
      var n := NatToString(days);
      RemoveAfterDigits(n, "일 후");
      ParseNatToString(days);
    }
  }

  lemma RemoveAfterDigits(n: string, suffix: string)
    requires suffix != [] && !IsDigit(suffix[0])
    requires forall i :: 0 <= i < |n| ==> IsDigit(n[i])
    ensures RemoveFirst(n + suffix, suffix) == n
    decreases |n|
  {
    if n != [] {
      assert (n + suffix)[1..] == n[1..] + suffix;
      assert (n + suffix)[..|suffix|] != suffix by {
        if |suffix| <= |n| + |suffix| {
          assert (n + suffix)[0] == n[0];
        }
      }
      RemoveAfterDigits(n[1..], suffix);
    } else {
      assert n + suffix == suffix;
    }
  }

  predicate KeepsCategory(selected: string, doc: DocumentListItem) {
    selected == ALL || doc.category == selected
  }

  predicate KeepsPriority(selected: string, doc: DocumentListItem) {
    selected == ALL || Some(doc.priority) == PriorityOfLabel(selected)
  }

  function CategoryFilter(selected: string): DocumentListItem -> bool {
    d => KeepsCategory(selected, d)
  }

  function PriorityFilter(selected: string): DocumentListItem -> bool {
    d => KeepsPriority(selected, d)
  }

  function RowFilter(category: string, priority: string): DocumentListItem -> bool {
    d => KeepsCategory(category, d) && KeepsPriority(priority, d)
  }

  /** The rows both filters keep, in their order. */
  function FilteredRows(documents: seq<DocumentListItem>, category: string, priority: string): (r: seq<DocumentListItem>)
    ensures IsSubsequenceOf(r, documents)
    ensures forall d :: d in r <==> d in documents && KeepsCategory(category, d) && KeepsPriority(priority, d)
  {
    var r := Filter(documents, RowFilter(category, priority));
    FilterIsSubsequence(documents, RowFilter(category, priority));
    forall d ensures d in r <==> d in documents && KeepsCategory(category, d) && KeepsPriority(priority, d) {
      FilterMembership(documents, RowFilter(category, priority), d);
    }
    r
  }

  function ProgressKey(d: DocumentListItem): int {
    d.progress
  }

  function NegProgressKey(d: DocumentListItem): int {
    -d.progress
  }

  function DeadlineSortKey(d: DocumentListItem): int {
    DeadlineKey(d).GetOr(0)
  }

  function NegDeadlineSortKey(d: DocumentListItem): int {
    -DeadlineKey(d).GetOr(0)
  }

  predicate DeadlinesParse(rows: seq<DocumentListItem>) {
    forall i :: 0 <= i < |rows| ==> DeadlineKey(rows[i]).Some?
  }

  /** The key the comparator for `option` orders by, when it is a consistent one. */
  function SortKey(option: SortOption): DocumentListItem -> int {
    match (option.field, option.order)
    case (ProgressField, Asc) => ProgressKey
    case (ProgressField, Desc) => NegProgressKey
    case (_, Asc) => DeadlineSortKey
    case (_, Desc) => NegDeadlineSortKey
  }

  /**
   * `filtered.sort(...)`. The progress comparator and, when every deadline parses, the
   * deadline comparator are consistent, so the (stable) sort is determined. With an expired
   * row the deadline comparator yields `NaN` and the order is up to the engine; the model
   * then keeps the filtered order. Any other field compares equal, so the order is kept.
   */
  function SortedRows(rows: seq<DocumentListItem>, option: SortOption): (r: seq<DocumentListItem>)
    ensures multiset(r) == multiset(rows)
    ensures option.field == ProgressField ==> SortedByKey(r, SortKey(option))
    ensures option.field == DeadlineField && DeadlinesParse(rows) ==> SortedByKey(r, SortKey(option))
    ensures option.field.OtherField? || (option.field == DeadlineField && !DeadlinesParse(rows)) ==> r == rows
  {
    if option.field.ProgressField? || (option.field.DeadlineField? && DeadlinesParse(rows)) then
      SortByKeySorted(rows, SortKey(option));
      SortByKeyPermutes(rows, SortKey(option));
      SortByKey(rows, SortKey(option))
    else rows
  }

  /** `filteredAndSortedDocuments`: a copy of the rows, filtered, then sorted. */
  method FilteredAndSortedDocuments(documents: seq<DocumentListItem>, selectedCategory: string,
                                    selectedPriority: string, sortOption: SortOption)
    returns (filtered: seq<DocumentListItem>)
    ensures filtered == SortedRows(FilteredRows(documents, selectedCategory, selectedPriority), sortOption)
  {
    var byCategory := FilterByCategory(documents, selectedCategory);
    filtered := FilterByPriority(byCategory, selectedPriority);
    FilterFilter(documents, CategoryFilter(selectedCategory), PriorityFilter(selectedPriority),
      RowFilter(selectedCategory, selectedPriority));
    match sortOption.field {
      case DeadlineField =>
        if DeadlinesParse(filtered) {
          filtered := SortByKey(filtered, SortKey(sortOption));
        }
      case ProgressField =>
        filtered := SortByKey(filtered, SortKey(sortOption));
      case OtherField(_) =>
    }
  }

  /** The category step: all rows for `전체`, else the rows of that category. */
  method FilterByCategory(documents: seq<DocumentListItem>, selectedCategory: string)
    returns (filtered: seq<DocumentListItem>)
    ensures filtered == Filter(documents, CategoryFilter(selectedCategory))
  {
    filtered := documents;
    if selectedCategory != ALL {
      filtered := Filter(filtered, (d: DocumentListItem) => d.category == selectedCategory);
      FilterSame(documents, (d: DocumentListItem) => d.category == selectedCategory, CategoryFilter(selectedCategory));
    } else {
      FilterAll(documents, CategoryFilter(selectedCategory));
    }
  }

  /** The priority step: all rows for `전체`, else the rows whose priority the label names. */
  method FilterByPriority(rows: seq<DocumentListItem>, selectedPriority: string)
    returns (filtered: seq<DocumentListItem>)
    ensures filtered == Filter(rows, PriorityFilter(selectedPriority))
  {
    filtered := rows;
    if selectedPriority != ALL {
      var wanted := PriorityOfLabel(selectedPriority);
      filtered := Filter(filtered, (d: DocumentListItem) => Some(d.priority) == wanted);
      FilterSame(rows, (d: DocumentListItem) => Some(d.priority) == wanted, PriorityFilter(selectedPriority));
    } else {
      FilterAll(rows, PriorityFilter(selectedPriority));
    }
  }

  /** Filters that agree on every element filter alike. */
  lemma FilterSame<T>(xs: seq<T>, p: T -> bool, q: T -> bool)
    requires forall x :: x in xs ==> p(x) == q(x)
    ensures Filter(xs, p) == Filter(xs, q)
  {
  }

  /** Two filters in a row are one filter by both predicates. */
  lemma {:induction false} FilterFilter<T>(xs: seq<T>, p: T -> bool, q: T -> bool, both: T -> bool)
    requires forall x :: both(x) == (p(x) && q(x))
    ensures Filter(Filter(xs, p), q) == Filter(xs, both)
  {
    if xs != [] {
      FilterFilter(xs[1..], p, q, both);
      var rest := Filter(xs[1..], p);
      if p(xs[0]) {
        assert Filter(xs, p) == [xs[0]] + rest;
        assert ([xs[0]] + rest)[1..] == rest;
      } else {
        assert Filter(xs, p) == rest;
      }
    }
  }

  // ---------------------------------------------------------------------------------------
  // The page
  // ---------------------------------------------------------------------------------------

  /** The pending-queue page's state. */
  class PendingQueue {
    var documents: seq<DocumentListItem>
    var loading: bool
    var error: Option<string>
    var selectedCategory: string
    var selectedPriority: string
    var sortOption: SortOption

    constructor ()
      ensures documents == [] && loading && error.None?
      ensures selectedCategory == ALL && selectedPriority == ALL && sortOption == DEFAULT_SORT
    {
      documents, loading, error := [], true, None;
      selectedCategory, selectedPriority, sortOption := ALL, ALL, DEFAULT_SORT;
    }

    /** `fetchDocuments` finished at time `now`. */
    method ReceiveDocuments(outcome: FetchOutcome, now: int)
      modifies this`documents, this`loading, this`error
      ensures documents == (if outcome.Fetched? then PendingRows(outcome.docs, now) else [])
      ensures error == FetchErrorMessage(outcome) && !loading
    {
      match outcome {
        case Fetched(docs) =>
          documents := PendingRows(docs, now);
          error := None;
        case FailedWithError(message) =>
          error := Some(LOAD_FAILED + ": " + message);
          documents := [];
        case FailedOther =>
          error := Some(LOAD_FAILED + ".");
          documents := [];
      }
      loading := false;
    }

    /** The category menu. */
    method SelectCategory(category: string)
      modifies this`selectedCategory
      ensures selectedCategory == category
    {
      selectedCategory := category;
    }

    /** The priority menu. */
    method SelectPriority(priority: string)
      modifies this`selectedPriority
      ensures selectedPriority == priority
    {
      selectedPriority := priority;
    }

    /** The sort menu, given the chosen option's value. */
    method SelectSort(value: string)
      modifies this`sortOption
      ensures sortOption == SortOptionOfValue(value)
    {
      sortOption := SortOptionOfValue(value);
    }

    /** The table rows; the page's own list is left as it is. */
    method Rows() returns (rows: seq<DocumentListItem>)
      ensures rows == SortedRows(FilteredRows(documents, selectedCategory, selectedPriority), sortOption)
    {
      rows := FilteredAndSortedDocuments(documents, selectedCategory, selectedPriority, sortOption);
    }
  }

  /** Selecting a named category empties the list of converted rows. */
  lemma NamedCategoryHidesAll(response: seq<DocumentResponse>, now: int, category: string, priority: string)
    requires category in CATEGORIES && category != ALL
    ensures FilteredRows(PendingRows(response, now), category, priority) == []
  {
    var rows := PendingRows(response, now);
    var r := FilteredRows(rows, category, priority);
    if r != [] {
      assert r[0] in rows;
      var i :| 0 <= i < |rows| && rows[i] == r[0];
      CategoryLabelNotNamed(Filter(response, IsPending)[i].categoryId);
      assert false;
    }
  }

  /** Every fetched row has progress 0, so sorting the list by progress, either way, leaves it
      in the order of the response. */
  lemma ProgressSortKeepsOrder(response: seq<DocumentResponse>, now: int, category: string, priority: string,
                               order: SortOrder)
    ensures var rows := FilteredRows(PendingRows(response, now), category, priority);
      SortedRows(rows, SortOption(ProgressField, order)) == rows
  {
    var all := PendingRows(response, now);
    var rows := FilteredRows(all, category, priority);
    var key := SortKey(SortOption(ProgressField, order));
    forall i | 0 <= i < |rows| ensures rows[i].progress == 0 {
      assert rows[i] in all;
    }
    SortByKeyOfSorted(rows, key);
  }
}
