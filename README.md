# LangBridge translation workbench: a Dafny model

This project models the sequential logic of the LangBridge front end, a browser workbench where
translators edit a document in three synchronised panes: the original, the AI draft and the
translator's live draft. It covers:

- **Paragraph indexing** (`ParagraphUtils`). The HTML of a version is tagged with
  `data-paragraph-id` / `data-paragraph-index`. The tagged paragraphs are read back sorted by
  index, the paragraph at a scroll offset is found, and highlight and completion styles are
  written to elements.
- **The translation session** (`TranslationWork`). This is the `TranslationWork` page as a state
  holder with one method per event:
  - the load, with the lock decision and the choice of versions;
  - the paragraph-count timer;
  - scroll synchronisation and its re-entrancy flag;
  - hover, the checkbox and the completion set with its progress readout;
  - the styling effect;
  - re-indexing of the editor and caret restoration, under the model's verbatim `setContent`;
  - autosave, handover and completion requests.
- **The pending queue** (`TranslationsPending`). This covers relative-time and deadline labels,
  the pending filter, the category and priority filters, and the sorts.
- **The glossary page** (`GlossaryManage`). This covers the admin gate, the fetch parameters, the
  case-insensitive search and the add and edit forms.
- **The error boundary** (`ErrorBoundary`). This is a three-field state machine and its choice of
  view.
- **The status badge** (`StatusBadge`). This is the six document states with their labels and
  colours.

Supporting modules:

- `Wrappers` holds `Option`.
- `Seqs` holds `Array.prototype.filter` and a stable sort by key.
- `Strings` holds `trim`, `parseInt`, number-to-string, an ASCII `toLowerCase` and `includes`.
- `Dom` holds the document model.

The DOM modelling choices:

- A document is a flat list of nodes in document order (preorder), the order of
  `querySelectorAll` and `forEach`.
- An element is `Elem(tag, attrs, style, subtreeEnd)`.
- Elements are addressed by their position.
- A tree `Html` with `Flatten` stands in for `DOMParser`. `ParseBodyNodeAt` ties each position to
  its tree node and its `textContent`.
- A pane is a `Container` object. Its `nodes`, its scroll metrics and its layout (the bounding
  rectangles as a function from element position to `Rect`) are fields, so the style helpers and
  the scroll code change them in place.

JavaScript details are written out:

- `parseInt` returns `None` for `NaN`.
- `Math.floor` of a division by a positive constant is Dafny's `/`.
- `Math.ceil` is `-((-x) / d)`.
- `a || b` falls back on falsy values.
- `${undefined}` becomes `"undefined"`.
- A `Set<number>` is a duplicate-free sequence in insertion order, since `Array.from` exposes the
  order in the payloads. `NaN` is a member like any other, because a Set compares by
  SameValueZero.
- `===` never matches `NaN`.
- The highlighted index is `Option<Option<int>>`: the outer `None` is `null`, the inner one `NaN`.

Behaviour of the code that the model keeps as it is:

- Indices count every selector match, empty ones included, so they can have gaps (`GapFacts`,
  `IndexSkipsEmptyMatch`).
- A failed version request is swallowed and the editing screen shows (`VersionFailureSwallowed`).
- Autosave is not gated by the lock. The autosave effect runs whenever the editor exists and the
  route carries an id. `AutosavePayload` and `Session.AutosaveTimerFired` take no lock input.

## Model

| member | source | states |
|---|---|---|
| Dom.SubtreeEnd | src/utils/paragraphUtils.ts:27 | an element's subtree ends after the element and within the document |
| Dom.TextsSplit | src/utils/paragraphUtils.ts:27 | the text of a range of nodes is the text of its two halves concatenated |
| Dom.SameShapeTexts | src/utils/paragraphUtils.ts:27 | documents that differ only in attributes and styles have the same text in every range |
| Dom.SameShapeTextContent | src/utils/paragraphUtils.ts:27 | writing attributes or styles never changes any element's `textContent` |
| Dom.Flatten | src/utils/paragraphUtils.ts:17-19 | the parsed tree has exactly as many nodes in document order as the tree has |
| Dom.FlattenTexts | src/utils/paragraphUtils.ts:17-19 | the text of a parsed subtree is the tree's text |
| Dom.FlattenNodeAt | src/utils/paragraphUtils.ts:17-19 | the k-th parsed node is the k-th tree node, with that node's text as `textContent` |
| Dom.FlattenRoot | src/utils/paragraphUtils.ts:17-19 | a parsed subtree starts with its root element, whose `textContent` is the tree's text |
| Dom.ParseBodyNodeAt | src/utils/paragraphUtils.ts:17-19 | every position of the parsed body corresponds to a node of the HTML tree, with the same tag, attributes and text |
| Strings.Trim | src/pages/GlossaryManage.tsx:66 | the result is `s` with a blank prefix and a blank suffix cut off; it is empty iff the string is all whitespace, and otherwise starts and ends with non-whitespace |
| Strings.TrimStart | src/pages/TranslationWork.tsx:24 | `parseInt`'s leading-whitespace skip removes exactly a whitespace prefix |
| Strings.TrimEnd | src/pages/TranslationWork.tsx:325 | removes exactly a whitespace suffix |
| Strings.NatToString | src/utils/paragraphUtils.ts:31 | `index.toString()` is a non-empty string of digits, one digit exactly below 10 |
| Strings.IntToString | src/pages/TranslationsPending.tsx:58 | a number's decimal text is non-empty |
| Strings.LeadingDigits | src/utils/paragraphUtils.ts:52 | `parseInt` reads the longest prefix of digits |
| Strings.ParseInt | src/utils/paragraphUtils.ts:52 | `parseInt(s, 10)` is a number iff digits follow the whitespace and the optional sign |
| Strings.ParseNatToString | src/utils/paragraphUtils.ts:31-52 | the index written as text parses back to the same number |
| Strings.ParseIntToString | src/pages/TranslationWork.tsx:24 | an id written in decimal, negative ones included, parses back to itself |
| Strings.ParseNegative | src/pages/TranslationWork.tsx:24 | a negative number written in decimal parses back to itself |
| Strings.ParseDigits | src/utils/paragraphUtils.ts:52 | a non-empty run of digits parses as its decimal value |
| Strings.NatToStringInjective | src/utils/paragraphUtils.ts:29-31 | distinct indices are written as distinct strings |
| Strings.ToLower | src/pages/GlossaryManage.tsx:67 | lower-casing maps each character and keeps the length |
| Strings.ContainsAt | src/pages/GlossaryManage.tsx:70 | `includes` holds iff the query occurs at some offset |
| Strings.ContainsEmpty | src/pages/GlossaryManage.tsx:70 | every string includes the empty query, and the empty string includes only it |
| Seqs.Filter | src/pages/TranslationsPending.tsx:97-99 | `filter` keeps only elements that pass, and never more elements than it had |
| Seqs.FilterIsSubsequence | src/pages/TranslationsPending.tsx:132 | `filter` returns a subsequence, in the original order |
| Seqs.FilterMultiplicity | src/pages/GlossaryManage.tsx:68 | a passing element is kept as many times as it occurs, and a failing one never |
| Seqs.FilterMembership | src/pages/TranslationsPending.tsx:142 | an element is kept iff it is present and passes |
| Seqs.FilterAll | src/pages/GlossaryManage.tsx:66 | a filter every element passes changes nothing |
| Seqs.SortByKey | src/utils/paragraphUtils.ts:57 | `sort` keeps the number of elements |
| Seqs.SortByKeyPermutes | src/utils/paragraphUtils.ts:57 | `sort` returns a permutation of its input |
| Seqs.SortByKeySorted | src/utils/paragraphUtils.ts:57 | the sort by `a.index - b.index` orders by key |
| Seqs.SortByKeyStable | src/utils/paragraphUtils.ts:57 | the sort is stable: elements with equal keys keep their order |
| Seqs.SortByKeyOfSorted | src/pages/TranslationsPending.tsx:146-156 | sorting an already ordered list changes nothing |
| Seqs.InsertByKeySorted | src/utils/paragraphUtils.ts:57 | inserting into an ordered list keeps it ordered |
| Seqs.InsertByKeyPermutes | src/utils/paragraphUtils.ts:57 | one insertion step adds exactly the inserted element |
| ParagraphUtils.BlocksBelow | src/utils/paragraphUtils.ts:22-23 | the selector matches are exactly the block elements, in document order |
| ParagraphUtils.BlockIndexes | src/utils/paragraphUtils.ts:23-25 | the `forEach` index of a match is its position in the match list, and back |
| ParagraphUtils.BlockIndexMonotone | src/utils/paragraphUtils.ts:25 | indices increase strictly in document order |
| ParagraphUtils.ExtractParagraphs | src/utils/paragraphUtils.ts:16-36 | the loop over the matches produces the annotated document: each qualifying match gets the id and the index of its position among all matches |
| ParagraphUtils.VisitMatch | src/utils/paragraphUtils.ts:25-34 | one `forEach` step tags the match at that index iff its trimmed text is non-empty, and changes nothing else |
| ParagraphUtils.AnnotatedKeepsDocument | src/utils/paragraphUtils.ts:25-35 | tags, nesting, text, styles and every other attribute are preserved |
| ParagraphUtils.TagKeeps | src/utils/paragraphUtils.ts:30-31 | the two attribute writes keep the tag, nesting, style and every other attribute |
| ParagraphUtils.AnnotatedIdempotent | src/utils/paragraphUtils.ts:25-35 | extracting twice with the same container id equals extracting once |
| ParagraphUtils.TagTwice | src/utils/paragraphUtils.ts:30-31 | writing the two attributes twice equals writing them once |
| ParagraphUtils.TagAttrs | src/utils/paragraphUtils.ts:29-31 | the id written is `para-<containerId>-<index>` and the index attribute is the index's text |
| ParagraphUtils.Annotated | src/utils/paragraphUtils.ts:16-36 | the serialised document has one node per parsed node; what each node becomes is stated by `AnnotatedKeepsDocument` and `TaggedAfterExtract` |
| ParagraphUtils.GapFacts | src/utils/paragraphUtils.ts:25-28 | a whitespace-only match does not qualify but takes index 0, so the next paragraph has index 1 |
| ParagraphUtils.IndexSkipsEmptyMatch | src/utils/paragraphUtils.ts:25-31 | after extraction the empty match is untouched and the next paragraph is tagged `para-c-1`, index 1 |
| ParagraphUtils.NestedFacts | src/utils/paragraphUtils.ts:22-28 | a `div` wrapping a `p` and the `p` both qualify, with indices 0 and 1 |
| ParagraphUtils.NestedMatchesBothTagged | src/utils/paragraphUtils.ts:22-31 | both nested matches are tagged, each with its own index |
| ParagraphUtils.TaggedAfterExtract | src/utils/paragraphUtils.ts:22-32 | on a document without paragraph attributes, an element is tagged by extraction iff it is a block element with non-blank text, and its paragraph is `(para-<cid>-<i>, element, i)` for its match index i |
| ParagraphUtils.TaggedBelow | src/utils/paragraphUtils.ts:43-55 | every collected paragraph is an element carrying both non-empty attributes, in strictly increasing document order |
| ParagraphUtils.TaggedBelowReads | src/utils/paragraphUtils.ts:46-53 | each collected paragraph has its element's id and the `parseInt` of its element's index |
| ParagraphUtils.TaggedBelowComplete | src/utils/paragraphUtils.ts:43-48 | no element carrying both attributes is skipped |
| ParagraphUtils.Paragraphs | src/utils/paragraphUtils.ts:41-58 | `getParagraphs` returns a permutation of the tagged elements, ordered by index when every index parses |
| ParagraphUtils.GetParagraphs | src/utils/paragraphUtils.ts:41-58 | the push loop and the sort return `Paragraphs` of the container's document |
| ParagraphUtils.ParagraphsAreTagged | src/utils/paragraphUtils.ts:43-55 | every returned paragraph is a tagged element with its own id and parsed index, and every tagged element is returned |
| ParagraphUtils.ParagraphReads | src/utils/paragraphUtils.ts:46-57 | each returned paragraph is a tagged element read off its attributes |
| ParagraphUtils.ParagraphFound | src/utils/paragraphUtils.ts:43-57 | each tagged element is among the returned paragraphs |
| ParagraphUtils.ExtractThenGetParagraphs | src/utils/paragraphUtils.ts:16-58 | after extraction the returned paragraphs, in document order, are exactly the qualifying blocks, with the ids and indices extraction wrote |
| ParagraphUtils.ExtractedParagraph | src/utils/paragraphUtils.ts:22-55 | after extraction, each collected paragraph is a qualifying match with the id and index extraction wrote for it |
| ParagraphUtils.ExtractedIndicesParse | src/utils/paragraphUtils.ts:31-52 | after extraction every index attribute parses as a number |
| ParagraphUtils.ExtractedSorted | src/utils/paragraphUtils.ts:25-57 | after extraction the collected paragraphs are already ordered by index |
| ParagraphUtils.ExtractedInOrder | src/utils/paragraphUtils.ts:25-57 | after extraction the sort keeps document order |
| ParagraphUtils.FirstWith | src/utils/paragraphUtils.ts:63-72 | `querySelector([k="v"])` returns the first element with that attribute value, or none iff there is no such element |
| ParagraphUtils.FindParagraphById | src/utils/paragraphUtils.ts:63-65 | the first element whose `data-paragraph-id` is the given id, or none iff no element carries it |
| ParagraphUtils.FindParagraphByIndex | src/utils/paragraphUtils.ts:70-72 | the first element whose `data-paragraph-index` is the index written as a decimal, or none iff no element carries it |
| ParagraphUtils.FirstWithUnique | src/utils/paragraphUtils.ts:63-72 | an attribute value only one element carries is found at that element |
| ParagraphUtils.ParagraphIdInjective | src/utils/paragraphUtils.ts:29 | within one container, different indices give different ids |
| ParagraphUtils.OtherNotTaggedLike | src/utils/paragraphUtils.ts:29-31 | after extraction no other element carries a given paragraph's id or index |
| ParagraphUtils.FindAfterExtract | src/utils/paragraphUtils.ts:63-72 | after extraction, `findParagraphById` and `findParagraphByIndex` both find a paragraph by its id and by its index |
| ParagraphUtils.Distance | src/utils/paragraphUtils.ts:93-101 | the distance is the absolute difference between the element top and the container top |
| ParagraphUtils.FirstInView | src/utils/paragraphUtils.ts:80-88 | the first paragraph in index order whose top is at most 50 below the offset and whose bottom is not above it, or none if no paragraph qualifies |
| ParagraphUtils.Closest | src/utils/paragraphUtils.ts:91-107 | the paragraph nearest the container top, the earliest among ties |
| ParagraphUtils.NearestParagraph | src/utils/paragraphUtils.ts:91-109 | the loop with `closest` and `minDistance` returns the `Closest` paragraph |
| ParagraphUtils.ScrollPick | src/utils/paragraphUtils.ts:80-112 | a paragraph is chosen iff there is one |
| ParagraphUtils.AtScrollPosition | src/utils/paragraphUtils.ts:77-112 | the result is null exactly when the container has no paragraphs, and is otherwise one of them |
| ParagraphUtils.GetParagraphAtScrollPosition | src/utils/paragraphUtils.ts:77-113 | the two loops return the paragraph in view, else the nearest, as `AtScrollPosition` chooses it |
| ParagraphUtils.Highlighted | src/utils/paragraphUtils.ts:118-129 | switched on, the background, transition, left border and padding take the highlight values; switched off, all three visible highlight fields are empty and the transition is kept; completion fields are untouched |
| ParagraphUtils.Completed | src/utils/paragraphUtils.ts:134-144 | switched on, opacity 0.7, line-through and the secondary text colour; switched off, all three are empty; highlight fields are untouched |
| ParagraphUtils.StyleSettingsOverwrite | src/utils/paragraphUtils.ts:118-144 | the last completion setting wins; the last highlight setting wins, and after highlighting then unhighlighting the only difference is the transition left by the highlight; the two kinds of setting commute |
| ParagraphUtils.Restyled | src/utils/paragraphUtils.ts:118-144 | a style write changes nothing but the inline style |
| ParagraphUtils.HighlightParagraph | src/utils/paragraphUtils.ts:118-129 | the element's style becomes `Highlighted` of its old style, and nothing else changes |
| ParagraphUtils.MarkParagraphComplete | src/utils/paragraphUtils.ts:134-144 | the element's style becomes `Completed` of its old style, and nothing else changes |
| ParagraphUtils.RestyleTagged | src/utils/paragraphUtils.ts:150-153 | every tagged element is restyled and every other node is unchanged |
| ParagraphUtils.RestyleAtStep | src/utils/paragraphUtils.ts:151-153 | restyling one more element extends the previous result at that element |
| ParagraphUtils.RestyleElements | src/utils/paragraphUtils.ts:151-153 | the `forEach` restyles exactly the listed elements |
| ParagraphUtils.RestyleParagraphs | src/utils/paragraphUtils.ts:150-153 | restyling the elements `getParagraphs` returns restyles exactly the tagged elements |
| ParagraphUtils.ClearAllHighlights | src/utils/paragraphUtils.ts:149-154 | as written: only the background of each paragraph is cleared |
| ParagraphUtils.UnhighlightedPane | src/utils/paragraphUtils.ts:124-128 | clearing with `highlightParagraph(el, false)` leaves no visible highlight and touches no completion style |
| ParagraphUtils.RemoveAllHighlights | src/utils/paragraphUtils.ts:146-154 | corrected: every paragraph is unhighlighted as `highlightParagraph(el, false)` does |
| StatusBadge.ParseState | src/components/StatusBadge.tsx:9-16 | a recognised wire name is the name of the state it yields |
| StatusBadge.ParseStateName | src/components/StatusBadge.tsx:9-16 | each state's wire name reads back as that state |
| StatusBadge.RenderBadge | src/components/StatusBadge.tsx:28-46 | the badge shows its own status's label, background and text colour, for all six states |
| StatusBadge.StatusLabel | src/components/StatusBadge.tsx:9-16 | every state has a non-empty label without surrounding spaces; `LabelIdentifiesState` shows labels tell states apart |
| StatusBadge.StatusStyle | src/components/StatusBadge.tsx:19-26 | every state's background and text are `#RRGGBB` colours, and they differ from each other |
| StatusBadge.StateOfLabel | src/components/StatusBadge.tsx:9-16 | a recognised label is the label of the state it yields |
| StatusBadge.LabelIdentifiesState | src/components/StatusBadge.tsx:9-16 | each state's label reads back as that state, so the labels are pairwise distinct |
| StatusBadge.BadgesDistinct | src/components/StatusBadge.tsx:9-26 | two different states differ in label, in background colour and in text colour |
| ErrorBoundary.ErrorText | src/components/ErrorBoundary.tsx:120 | `error.toString()` is the name, the message, or `name: message` |
| ErrorBoundary.GetDerivedStateFromError | src/components/ErrorBoundary.tsx:35-42 | `hasError` is set, the error is recorded and `errorInfo` is null |
| ErrorBoundary.AfterDidCatch | src/components/ErrorBoundary.tsx:48-51 | records the error and the info and leaves `hasError` as it was |
| ErrorBoundary.Render | src/components/ErrorBoundary.tsx:71-168 | the children show iff there is no error; the fallback shows iff there is an error and a truthy fallback; the details panel shows iff in development with an error, with the stack iff there is info |
| ErrorBoundary.CatchThenReset | src/components/ErrorBoundary.tsx:35-69 | after a caught error the default view shows the error text and the stack in development and nothing in production; the reset state renders the children |
| ErrorBoundary.Boundary.constructor | src/components/ErrorBoundary.tsx:26-33 | starts with no error, no error object and no info |
| ErrorBoundary.Boundary.ApplyDerivedState | src/components/ErrorBoundary.tsx:35-42 | the state becomes `GetDerivedStateFromError(e)` |
| ErrorBoundary.Boundary.ComponentDidCatch | src/components/ErrorBoundary.tsx:44-61 | the state becomes `AfterDidCatch` of the old state |
| ErrorBoundary.Boundary.HandleReset | src/components/ErrorBoundary.tsx:63-69 | returns to the initial state from any state |
| GlossaryManage.PageScreen | src/pages/GlossaryManage.tsx:43 | the term manager shows iff the user is signed in as SUPER_ADMIN or ADMIN; everyone else gets the no-permission screen |
| GlossaryManage.IsAdmin | src/pages/GlossaryManage.tsx:43 | true iff a user is signed in whose role is SUPER_ADMIN or ADMIN; no user and any other role give false |
| GlossaryManage.FetchParams | src/pages/GlossaryManage.tsx:49-51 | `sourceLang` and `targetLang` are sent iff selected, with the selected values, and nothing else is sent |
| GlossaryManage.TermsAfterFetch | src/pages/GlossaryManage.tsx:52-56 | the response's terms, or none after a failure |
| GlossaryManage.FilteredTerms | src/pages/GlossaryManage.tsx:65-74 | the shown terms are a subsequence of the terms, in order |
| GlossaryManage.Matches | src/pages/GlossaryManage.tsx:68-73 | the empty query matches every term, and a term without a description matches exactly through its source or target term |
| GlossaryManage.BlankSearchShowsAll | src/pages/GlossaryManage.tsx:66 | a blank search shows the whole list unchanged |
| GlossaryManage.SearchKeepsExactlyMatches | src/pages/GlossaryManage.tsx:67-73 | otherwise a term is shown iff the lower-cased, untrimmed query occurs in its lower-cased source term, target term or description, as often as it occurs |
| GlossaryManage.NoDescriptionMatchesByTerms | src/pages/GlossaryManage.tsx:72 | a term without a description is found only through its source or target term |
| GlossaryManage.SearchIgnoresCase | src/pages/GlossaryManage.tsx:67 | the query's case does not matter |
| GlossaryManage.ToLowerIdempotent | src/pages/GlossaryManage.tsx:67 | lower-casing twice equals lower-casing once |
| GlossaryManage.LowerKeepsBlank | src/pages/GlossaryManage.tsx:66-67 | a query is blank iff its lower-cased form is blank |
| GlossaryManage.FormOf | src/pages/GlossaryManage.tsx:89-95 | the edit form's description is the term's, or `''` when it has none |
| GlossaryManage.EditFormRoundTrip | src/pages/GlossaryManage.tsx:89-95 | the edit form keeps every field of the term; only an empty description and no description are not told apart |
| GlossaryManage.GlossaryPage.constructor | src/pages/GlossaryManage.tsx:22-41 | no terms, loading, empty search and selections, dialogs closed, and the empty EN→KO form |
| GlossaryManage.GlossaryPage.ReceiveTerms | src/pages/GlossaryManage.tsx:45-60 | the fetched terms, or none on failure, and loading ends |
| GlossaryManage.GlossaryPage.SetSearchTerm | src/pages/GlossaryManage.tsx:351 | the search box sets the query |
| GlossaryManage.GlossaryPage.HandleAddClick | src/pages/GlossaryManage.tsx:76-85 | the form is reset to empty terms, EN→KO and no description, and the add dialog opens |
| GlossaryManage.GlossaryPage.HandleEditClick | src/pages/GlossaryManage.tsx:87-97 | the term is selected, the form holds its fields, and the edit dialog opens |
| TranslationsPending.PriorityOfLabel | src/pages/TranslationsPending.tsx:137-142 | a mapped label is the label of the priority it maps to |
| TranslationsPending.PriorityLabelsRoundTrip | src/pages/TranslationsPending.tsx:137-142 | each priority's menu label maps back to that priority and is one of the menu's choices |
| TranslationsPending.RelativeTimeBands | src/pages/TranslationsPending.tsx:49-64 | under an hour gives `m분 전` with m below 60; under a day gives `h시간 전` with h from 1 to 23; beyond that gives `d일 전` with d at least 1 |
| TranslationsPending.FormatRelativeTime | src/pages/TranslationsPending.tsx:49-64 | every label ends in ` 전`; its unit is minutes iff under an hour has passed and days iff at least a day has |
| TranslationsPending.DeadlineDays | src/pages/TranslationsPending.tsx:22 | the rounded-up whole number of days until seven days after creation |
| TranslationsPending.DeadlineLabel | src/pages/TranslationsPending.tsx:22-23 | `마감됨` iff the rounded-up day count is not positive; any other label ends in `일 후` |
| TranslationsPending.DeadlineExpired | src/pages/TranslationsPending.tsx:20-23 | the label is `마감됨` iff seven days have passed since creation |
| TranslationsPending.CategoryLabel | src/pages/TranslationsPending.tsx:29 | no id and id 0 both give `미분류` |
| TranslationsPending.CategoryLabelNotNamed | src/pages/TranslationsPending.tsx:11-29 | a converted row's category is never one of the menu's category names |
| TranslationsPending.ConvertToDocumentListItem | src/pages/TranslationsPending.tsx:15-46 | keeps the document's id, status and category id; the last-modified label exists iff the document was updated |
| TranslationsPending.ConvertedRowStarts | src/pages/TranslationsPending.tsx:17-243 | every converted row has progress 0, medium priority and is not final, so its button is the primary `번역 시작` |
| TranslationsPending.ActionLabel | src/pages/TranslationsPending.tsx:243 | `번역 시작` iff the row has no progress, `이어하기` otherwise |
| TranslationsPending.ActionVariant | src/pages/TranslationsPending.tsx:234 | the button is primary iff its label is `번역 시작` |
| TranslationsPending.PendingRows | src/pages/TranslationsPending.tsx:97-103 | the rows are the pending documents, converted, in response order |
| TranslationsPending.PendingRowsFromPending | src/pages/TranslationsPending.tsx:97-103 | every row is pending, the pending documents are a subsequence of the response, and every pending document is listed |
| TranslationsPending.FetchErrorMessage | src/pages/TranslationsPending.tsx:108-116 | there is an error message iff the fetch failed |
| TranslationsPending.DashAt | src/pages/TranslationsPending.tsx:339 | the first dash, with no dash before it |
| TranslationsPending.SortOptionOfValue | src/pages/TranslationsPending.tsx:336-341 | the selected field is the text before the value's first dash |
| TranslationsPending.SortValueSelects | src/pages/TranslationsPending.tsx:336-341 | a menu value `field-asc` or `field-desc` selects that field in that order |
| TranslationsPending.SortValueRoundTrip | src/pages/TranslationsPending.tsx:336-341 | a known field's menu value, once selected, is shown as itself |
| TranslationsPending.DeadlineMenuOption | src/pages/TranslationsPending.tsx:73-76 | `deadline-asc` selects the initial sort |
| TranslationsPending.ProgressMenuOptions | src/pages/TranslationsPending.tsx:352-354 | the two progress values select progress ascending and descending |
| TranslationsPending.ProgressMenuOption | src/pages/TranslationsPending.tsx:352-354 | `progress-asc` selects progress ascending and `progress-desc` progress descending |
| TranslationsPending.RemoveFirst | src/pages/TranslationsPending.tsx:149 | `replace` with a string pattern returns `s` unchanged when the pattern does not occur, and otherwise cuts out exactly its first occurrence |
| TranslationsPending.DeadlineKeyOfConverted | src/pages/TranslationsPending.tsx:149-150 | a row due in n days sorts as n; an expired row's key is `NaN` |
| TranslationsPending.DeadlineKey | src/pages/TranslationsPending.tsx:149-150 | an expired row's key is `NaN`, and a label that is empty once `일 후` is removed falls back to 999 |
| TranslationsPending.ParseFallback | src/pages/TranslationsPending.tsx:149 | the `'999'` fallback parses to 999 |
| TranslationsPending.ExpiredIsNaN | src/pages/TranslationsPending.tsx:149 | `마감됨` has no `일 후` to remove and does not parse |
| TranslationsPending.ExpiredKeepsText | src/pages/TranslationsPending.tsx:149 | `마감됨` holds no `일 후`, so the `replace` leaves it unchanged |
| TranslationsPending.RemoveAfterDigits | src/pages/TranslationsPending.tsx:149 | removing the suffix from `N일 후` leaves the digits |
| TranslationsPending.FilteredRows | src/pages/TranslationsPending.tsx:128-143 | the kept rows are a subsequence of `documents`; a row is kept iff it is present and each filter is `전체` or matches the row's category and mapped priority |
| TranslationsPending.SortedRows | src/pages/TranslationsPending.tsx:146-156 | a permutation of the rows; ordered by progress (ascending or descending) or by deadline when every deadline parses; kept in order for any other field |
| TranslationsPending.FilteredAndSortedDocuments | src/pages/TranslationsPending.tsx:127-159 | the two reassignments of `filtered` and the sort of the copy give `SortedRows(FilteredRows(...))`, leaving `documents` as it is |
| TranslationsPending.FilterByCategory | src/pages/TranslationsPending.tsx:131-133 | the first reassignment keeps exactly the rows of the chosen category, or all under `전체` |
| TranslationsPending.FilterByPriority | src/pages/TranslationsPending.tsx:136-143 | the second reassignment keeps exactly the rows whose mapped priority is the chosen one, or all under `전체` |
| TranslationsPending.FilterFilter | src/pages/TranslationsPending.tsx:131-143 | filtering by category, then by priority, equals filtering by both at once |
| TranslationsPending.NamedCategoryHidesAll | src/pages/TranslationsPending.tsx:131-133 | choosing any named category empties the list of converted rows |
| TranslationsPending.ProgressSortKeepsOrder | src/pages/TranslationsPending.tsx:152-154 | since every row has progress 0, the progress sort keeps the filtered order |
| TranslationsPending.PendingQueue.constructor | src/pages/TranslationsPending.tsx:68-76 | no rows, loading, no error, both filters `전체`, deadline ascending |
| TranslationsPending.PendingQueue.ReceiveDocuments | src/pages/TranslationsPending.tsx:79-124 | the pending rows after a fetch or none after a failure, the matching error message, and loading ends |
| TranslationsPending.PendingQueue.SelectCategory | src/pages/TranslationsPending.tsx:292 | the category menu sets the category filter |
| TranslationsPending.PendingQueue.SelectPriority | src/pages/TranslationsPending.tsx:315 | the priority menu sets the priority filter |
| TranslationsPending.PendingQueue.SelectSort | src/pages/TranslationsPending.tsx:338-341 | the sort menu sets the option its value names |
| TranslationsPending.PendingQueue.Rows | src/pages/TranslationsPending.tsx:127-159 | the table rows are the filtered and sorted documents |
| TranslationWork.RouteDocumentId | src/pages/TranslationWork.tsx:22-24 | no route id, or an empty one, gives no document id |
| TranslationWork.RouteOfId | src/pages/TranslationWork.tsx:24 | a route carrying an id in decimal yields that id, and it counts as present iff it is not 0 |
| TranslationWork.LoadErrorMessage | src/pages/TranslationWork.tsx:149 | never empty; the server's message comes first when there is one |
| TranslationWork.LockDecision | src/pages/TranslationWork.tsx:80-101 | editing is allowed only with `canEdit`, and a lock-out only without it |
| TranslationWork.BusyMessage | src/pages/TranslationWork.tsx:84 | the holder's name, or `undefined` when none is given, stands between `이 문서는 ` and `님이 작업 중입니다.` |
| TranslationWork.LockOutcomes | src/pages/TranslationWork.tsx:80-101 | locked out iff acquire says `canEdit = false`, or a 409 is followed by a status without `canEdit`; a non-409 failure, or a failed status read, becomes the load error; editable in exactly the remaining grant cases |
| TranslationWork.FindVersion | src/pages/TranslationWork.tsx:108-116 | `find` returns the first version of that type, or none iff there is none |
| TranslationWork.DraftSource | src/pages/TranslationWork.tsx:115-134 | the chosen version is one of the versions, an AI draft or an original, and an original only when there is no AI draft |
| TranslationWork.DraftSourceChoice | src/pages/TranslationWork.tsx:115-134 | the middle pane and the editor use the AI draft if there is one, else the original; there is nothing iff neither exists |
| TranslationWork.PanesAlign | src/pages/TranslationWork.tsx:111-131 | the same version tagged for two panes tags the same elements with the same indices |
| TranslationWork.Remove | src/pages/TranslationWork.tsx:306 | `delete` removes exactly the element, keeps the others and no duplicates, and changes nothing when it is absent |
| TranslationWork.Toggled | src/pages/TranslationWork.tsx:302-313 | the toggled index flips membership, every other index keeps it, and the set stays duplicate-free |
| TranslationWork.ToggleTwice | src/pages/TranslationWork.tsx:302-313 | toggling the same index twice restores the members, and the very same sequence when it was absent |
| TranslationWork.RemoveLast | src/pages/TranslationWork.tsx:304-309 | removing the index just added gives back the previous set |
| TranslationWork.ProgressPercent | src/pages/TranslationWork.tsx:430-431 | `Math.round(100c/t)`, exactly: the nearest integer, halves rounding up; 0 when t is 0 |
| TranslationWork.ProgressBounds | src/pages/TranslationWork.tsx:430-431 | between 0 and 100 while completed ≤ total; 0 with nothing done; 100 with everything done |
| TranslationWork.ScrollRatio | src/pages/TranslationWork.tsx:231-232 | 0 when the source cannot scroll, and between 0 and 1 inside the scroll range |
| TranslationWork.RatioPreserved | src/pages/TranslationWork.tsx:234-239 | a target that can scroll ends at the source's ratio |
| TranslationWork.SyncedScrollTop | src/pages/TranslationWork.tsx:234-239 | a pane that cannot scroll keeps its offset; one that can ends within its scroll range for a ratio in [0, 1] |
| TranslationWork.HighlightAfterScroll | src/pages/TranslationWork.tsx:242-245 | the highlight moves to the found paragraph's index, and stays when none is found |
| TranslationWork.ParagraphStyle | src/pages/TranslationWork.tsx:270-285 | the highlighted index gets the highlight and border; the others keep their highlight fields; the completion mark shows iff the index is completed |
| TranslationWork.MarkedAtStep | src/pages/TranslationWork.tsx:269-286 | styling one more paragraph restyles only that element and keeps its tags |
| TranslationWork.MarkedNodeTwice | src/pages/TranslationWork.tsx:270-285 | styling keeps a paragraph's tags and index, and styling it again changes nothing |
| TranslationWork.Marked | src/pages/TranslationWork.tsx:268-286 | every tagged element takes `ParagraphStyle` of its own index, and every other node is unchanged |
| TranslationWork.MarkedUpTo | src/pages/TranslationWork.tsx:269-286 | styling the first i paragraphs changes only styles |
| TranslationWork.MarkedUpToAt | src/pages/TranslationWork.tsx:269-286 | styling the first i paragraphs one by one equals styling their elements |
| TranslationWork.MarkedAtAll | src/pages/TranslationWork.tsx:268-286 | styling every tagged element gives the `Marked` document |
| TranslationWork.MarkParagraph | src/pages/TranslationWork.tsx:270-285 | one paragraph is styled as `MarkedNode`, and nothing else changes |
| TranslationWork.MarkEach | src/pages/TranslationWork.tsx:269-286 | the `forEach` styles the paragraphs in turn |
| TranslationWork.MarkParagraphs | src/pages/TranslationWork.tsx:268-286 | reading the paragraphs and styling each gives `Marked` of the pane |
| TranslationWork.ApplyParagraphStylesAsWritten | src/pages/TranslationWork.tsx:264-287 | as written: backgrounds cleared, then every paragraph marked |
| TranslationWork.ApplyParagraphStyles | src/pages/TranslationWork.tsx:264-287 | corrected: highlights removed, then every paragraph marked |
| TranslationWork.PaneShowsState | src/pages/TranslationWork.tsx:264-287 | with the corrected clearing, a paragraph shows a highlight iff it has the highlighted index, and a completion mark iff its index is completed; nothing else changes |
| TranslationWork.AsWrittenKeepsBorder | src/pages/TranslationWork.tsx:266-275 | as written, a paragraph that is not highlighted keeps whatever left border it had |
| TranslationWork.StaleHighlightAfterMove | src/pages/TranslationWork.tsx:263-299 | as written, with the highlight moved from paragraph 0 to 1, paragraph 0 still shows the highlight border; corrected, it shows no highlight |
| TranslationWork.ReindexSettles | src/pages/TranslationWork.tsx:169-176 | in the model, where `setContent` stores the document as given, one re-indexing leaves indexed elements, so the next debounce does not re-index; the page's editor schema does not keep the attributes (see "## Left out") |
| TranslationWork.NeedsReindex | src/pages/TranslationWork.tsx:168-175 | re-indexing is needed only when some selector match has non-blank text |
| TranslationWork.CaretAfter | src/pages/TranslationWork.tsx:181 | the caret is `min(from, size)` |
| TranslationWork.HandoverPayload | src/pages/TranslationWork.tsx:324-335 | no request iff there is no document id or the memo is blank; otherwise the trimmed memo, the trimmed terms (left out iff blank) and the completed set |
| TranslationWork.HandoverMemoTrimmed | src/pages/TranslationWork.tsx:325-328 | a sent memo is non-empty and has no whitespace at either end |
| TranslationWork.AutosavePayload | src/pages/TranslationWork.tsx:207-216 | a save iff the editor exists and there is a document id, with the editor's content and the completed set |
| TranslationWork.CompletePayload | src/pages/TranslationWork.tsx:343-355 | a completion iff the editor exists, there is a document id and the user confirmed; it is the same save as autosave |
| TranslationWork.RequestFeedback | src/pages/TranslationWork.tsx:336-339 | navigation to the queue happens iff the request succeeded, with the success alert |
| TranslationWork.ScreenOf | src/pages/TranslationWork.tsx:363-392 | the loading screen iff loading; the error screen, with that error, iff not loading, the error is non-empty and the lock status does not grant `canEdit`; the workspace otherwise |
| TranslationWork.HoverIndex | src/pages/TranslationWork.tsx:475 | a missing or empty index attribute reads as 0, and any other value is read by `parseInt` |
| TranslationWork.LoadedState | src/pages/TranslationWork.tsx:63-153 | every load ends with loading off and leaves the completed set and its count alone |
| TranslationWork.AfterLock | src/pages/TranslationWork.tsx:80-142 | the lock check and the versions reply leave the loading flag, the completed set and its count alone |
| TranslationWork.LockedOutShowsHolder | src/pages/TranslationWork.tsx:80-97 | a lock-out shows "being worked on by the holder" and stops before any version is loaded or counted |
| TranslationWork.NoDocumentIdShowsError | src/pages/TranslationWork.tsx:64-68 | without a document id the load ends with `문서 ID가 없습니다.`, fetches nothing, and shows the error screen when no lock is held |
| TranslationWork.DocumentFailureShowsError | src/pages/TranslationWork.tsx:146-152 | a failed document request ends with its load-error message, takes no lock, reads no version, and shows the error screen when no lock is held |
| TranslationWork.LockFailureShowsError | src/pages/TranslationWork.tsx:98-101 | another lock failure shows its load-error message and loads no version |
| TranslationWork.VersionFailureSwallowed | src/pages/TranslationWork.tsx:143-145 | a failed version request leaves no error and the workspace shows |
| TranslationWork.VersionsFillPanes | src/pages/TranslationWork.tsx:104-142 | the original pane shows the original tagged `original`; the middle pane and the editor show the AI draft, else the original, tagged `ai-draft` and `editor`; the count is scheduled |
| TranslationWork.UpdateParagraphIds | src/pages/TranslationWork.tsx:164-190 | the editor's content is replaced by its tagged form iff the editor is mounted, has no indexed element and tagging changes it; then the caret position to restore is returned |
| TranslationWork.RestoreCaret | src/pages/TranslationWork.tsx:178-186 | the caret goes to `min(from, size)`, or stays where it was when that fails |
| TranslationWork.ScrollPanels | src/pages/TranslationWork.tsx:234-239 | each target that can scroll goes to the ratio of its range, and the others keep their offset |
| TranslationWork.Session.constructor | src/pages/TranslationWork.tsx:21-43 | the route's id and the initial state: loading, no error, no lock, empty panes and set, no highlight, dialog closed |
| TranslationWork.Session.Load | src/pages/TranslationWork.tsx:63-153 | the session becomes `LoadedState` of the replies, and the editor shows `EditorAfterLoad` |
| TranslationWork.Session.LoadDocument | src/pages/TranslationWork.tsx:70-153 | with a document id, the same end state and editor content as `Session.Load` |
| TranslationWork.Session.CheckLockAndLoadVersions | src/pages/TranslationWork.tsx:80-142 | the session becomes `AfterLock` of the replies; the editor changes only when editing is allowed, the versions arrived, the editor exists and a draft source exists |
| TranslationWork.Session.LoadVersions | src/pages/TranslationWork.tsx:104-142 | the panes and the editor receive the tagged versions, and the count is scheduled |
| TranslationWork.Session.CountTimerFired | src/pages/TranslationWork.tsx:137-141 | the total becomes the number of paragraphs in the original pane |
| TranslationWork.Session.SyncScroll | src/pages/TranslationWork.tsx:227-250 | nothing happens while the flag is set; otherwise the flag is set, the targets follow the source's ratio and the highlight moves to the paragraph at the source's offset |
| TranslationWork.Session.HighlightAtScroll | src/pages/TranslationWork.tsx:241-245 | the highlight moves to the paragraph at the source's offset, if there is one |
| TranslationWork.Session.ScrollTimerFired | src/pages/TranslationWork.tsx:247-249 | only the timer clears the flag |
| TranslationWork.Session.Hover | src/pages/TranslationWork.tsx:253-255 | the hovered index becomes the highlighted one |
| TranslationWork.Session.ApplyStyles | src/pages/TranslationWork.tsx:263-299 | with the corrected clearing, the two panes and, when mounted, the editor are restyled to show the highlight and the completed set |
| TranslationWork.Session.ApplyStylesAsWritten | src/pages/TranslationWork.tsx:263-299 | as written: each pane and, when mounted, the editor become `StyledAsWritten` of their old contents, which keeps an old highlight's left border |
| TranslationWork.Session.Toggle | src/pages/TranslationWork.tsx:302-318 | the index is toggled, and the count equals the set's size |
| TranslationWork.Session.Valid | src/pages/TranslationWork.tsx:302-318 | the completed set is duplicate-free and the progress count is its size |
| TranslationWork.Session.CheckHighlighted | src/pages/TranslationWork.tsx:539-549 | the checkbox toggles the highlighted index |
| TranslationWork.Session.OpenHandover | src/pages/TranslationWork.tsx:320-322 | the handover dialog opens |
| TranslationWork.Session.EditMemo | src/pages/TranslationWork.tsx:619 | the memo field sets the memo |
| TranslationWork.Session.EditTerms | src/pages/TranslationWork.tsx:640 | the terms field sets the terms |
| TranslationWork.Session.DismissHandover | src/pages/TranslationWork.tsx:587 | the backdrop closes the dialog and keeps what was typed |
| TranslationWork.Session.CancelHandover | src/pages/TranslationWork.tsx:655-662 | cancelling closes the dialog and clears the memo and the terms |
| TranslationWork.Session.ConfirmHandover | src/pages/TranslationWork.tsx:324-335 | the handover request, or else the alert asking for a memo |
| TranslationWork.Session.AutosaveTimerFired | src/pages/TranslationWork.tsx:207-224 | the save the timer sends |
| TranslationWork.Session.HandleComplete | src/pages/TranslationWork.tsx:343-355 | the completion request, when the editor exists, there is an id and the user confirms |

## Left out

- HTTP calls (`documentApi`, `translationWorkApi`, `termApi`) are not modelled. Their results are
  parameters: `Reply`, `LoadReplies`, `FetchOutcome`, and the term response as an `Option`.
- The effect of `alert`, `confirm`, `navigate`, `console` and `window.location.reload` is not
  modelled. Only their arguments are: alert texts, the confirmation answer and the target route.
- Parsing HTML and serialising with `innerHTML` are left out. A document is its parsed node list.
  `ParseBody` from an `Html` tree gives one; comparing `html !== processed` compares node lists.
- The rich-text editor's schema normalisation is left out. `setContent` is modelled as storing the
  given document, and the document size is a parameter of `RestoreCaret`.
- TranslationWork.ReindexSettles: settling holds for the model's `setContent` only. The editor is
  built from the StarterKit extensions (src/pages/TranslationWork.tsx:48), whose paragraph node
  declares no attributes, so the editor drops `data-paragraph-id` and `data-paragraph-index` on
  `setContent` and `getHTML`. On the page as written, then, no editor element is ever indexed:
  every debounce finds no `[data-paragraph-index]` (lines 170-176), re-runs `setContent` and
  restores the caret; `applyParagraphStyles` finds no paragraph in `.ProseMirror` (lines 293-297);
  the editor click handler finds no index (lines 555-561); and the autosave and completion content
  (lines 211, 351) carries no tags. This depends on the editor library, which is not part of this
  model, and none of these consequences is modelled.
- React's rendering of the content strings into the panes is left out. The panes are `Container`
  parameters holding whatever the page rendered.
- Layout is left out. `getBoundingClientRect` is a given function from elements to rectangles.
  `scrollTop` is a `real` field, so a browser's clamping and rounding of assigned offsets are not
  modelled.
- Timers are left out. Each is an explicit event: the 100 ms count, the 300 ms re-index debounce,
  the 10 ms caret restore, the 50 ms scroll guard and the 2 s autosave. Cancellation and races are
  not modelled.
- `new Date()` is left out. `now` is an integer number of milliseconds passed in. Date-string
  parsing is left out: `createdAt` and `updatedAt` are milliseconds.
- TranslationWork.ProgressPercent: floating-point rounding of `completed / total * 100` is not
  modelled; the percentage is rounded from the exact rational value.
- ParagraphUtils.Paragraphs: when an index attribute does not parse (`NaN`), the sort order is up
  to the engine, and the model keeps document order.
- ParagraphUtils.FindParagraphById: the id is put unescaped into the selector
  `[data-paragraph-id="…"]`. An id holding `"` or a line break makes `querySelector` throw a
  SyntaxError, and a `\` starts a CSS escape. Neither is modelled: the model matches the id
  exactly, which is what the selector does for ids without those characters, such as the ones
  extraction writes.
- ParagraphUtils.FirstWith: the attribute-selector lookup both finders use matches the value
  exactly; the selector syntax errors and CSS escapes of the line above are not modelled.
- TranslationWork.Session.ApplyStyles: restyles with the corrected clearing of the Finding
  below, so an old highlight's border and padding go; the page as written is
  `Session.ApplyStylesAsWritten`, which keeps them.
- TranslationsPending.SortedRows: with an expired row the deadline comparator yields `NaN`, so the
  order is up to the engine. The model keeps the filtered order there, and only the permutation
  property is stated.
- Strings.ParseInt: the source's numbers are IEEE doubles, and the model's are unbounded
  integers. `parseInt` loses precision past 2^53, which the route id
  (src/pages/TranslationWork.tsx:24) and the paragraph index (src/utils/paragraphUtils.ts:52) would
  show; the model reads every digit run exactly.
- Strings.NatToString: `toString` and template literals switch to exponent form from 1e21 up (so
  `1e+21일 후` would read back as 1); the model writes plain decimal digits for every number.
- Strings.IntToString: the same exponent form from 1e21 up, in magnitude, is not modelled.
- TranslationsPending.DeadlineKey: the source calls `parseInt` without a radix
  (src/pages/TranslationsPending.tsx:149-150), which reads a `0x` prefix as hexadecimal; the model
  uses the decimal `Strings.ParseInt`. Labels of converted rows never start with `0x`, and the
  number-width limits of `Strings.ParseInt` apply here too.
- `toLowerCase` is modelled for ASCII letters only, and `trim` for the ECMAScript whitespace set.
- The colour `colors.secondaryText` comes from a design-token file that is not part of this model.
  It is a named constant.
- The GlossaryManage add, edit and delete confirmations and the delete dialog are left out. They
  only call the term service and show alerts.
- The Table widget, the ProgressBar and other presentation-only JSX are left out.
- Console logging in `componentDidCatch` is left out.
- `handleParagraphLeave` is left out. It does nothing.
- The lock banner is left out. It is presentation only.
- Tearing down a lock on leaving the page is left out. The page does not do it.

## Findings

| source | as written | input that shows it | evidently intended | confidence | as-written member | corrected member |
|---|---|---|---|---|---|---|
| src/utils/paragraphUtils.ts:149-154, src/pages/TranslationWork.tsx:264-287 | `clearAllHighlights` resets only `backgroundColor`. `applyParagraphStyles` relies on it to clear the previous highlight, so the left border and padding set by `highlightParagraph(el, true)` stay on a paragraph after the highlight leaves it. | Two tagged paragraphs with indices 0 and 1. Highlight 0, then move the highlight to 1: paragraph 0 keeps `3px solid #808080`. | Clearing all highlights resets all three highlight fields, as `highlightParagraph(el, false)` does, so only the highlighted paragraph shows a highlight. | high; not executed | ParagraphUtils.ClearAllHighlights; TranslationWork.ApplyParagraphStylesAsWritten; TranslationWork.Session.ApplyStylesAsWritten; TranslationWork.StaleHighlightAfterMove | ParagraphUtils.RemoveAllHighlights; TranslationWork.ApplyParagraphStyles; TranslationWork.Session.ApplyStyles; TranslationWork.PaneShowsState |
