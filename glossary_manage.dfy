/**
 * The glossary page: who may use it, which parameters the term fetch sends, the search
 * over the fetched terms, and how the add and edit forms are filled.
 */
module GlossaryManage {
  import opened Wrappers
  import opened Strings
  import opened Seqs

  /** `TermDictionaryResponse` (the creator and the timestamps are not used here). */
  datatype Term = Term(
    id: int,
    sourceTerm: string,
    targetTerm: string,
    sourceLang: string,
    targetLang: string,
    description: Option<string>)

  datatype UserRole = SuperAdmin | Admin | OtherRole(name: string)

  datatype User = User(role: UserRole)

  /** `user?.role === SUPER_ADMIN || user?.role === ADMIN`; no signed-in user is not an admin. */
  function IsAdmin(user: Option<User>): (r: bool)
    ensures r ==> user.Some?
    ensures user.Some? && user.value.role.OtherRole? ==> !r
    ensures user.Some? && !user.value.role.OtherRole? ==> r
  {
    user.Some? && (user.value.role == SuperAdmin || user.value.role == Admin)
  }

  datatype Screen = NoPermission | TermManager

  /** The page renders only the no-permission message to anyone who is not an admin. */
  function PageScreen(user: Option<User>): (s: Screen)
    ensures s == TermManager <==> user.Some? && user.value.role in {SuperAdmin, Admin}
  {
    if IsAdmin(user) then TermManager else NoPermission
  }

  // ---------------------------------------------------------------------------------------
  // The fetch
  // ---------------------------------------------------------------------------------------

  const SOURCE_LANG_PARAM := "sourceLang"
  const TARGET_LANG_PARAM := "targetLang"

  /** `params` of `fetchTerms`: each language filter is sent only when one is selected. */
  method FetchParams(selectedSourceLang: string, selectedTargetLang: string) returns (params: map<string, string>)
    ensures params.Keys <= {SOURCE_LANG_PARAM, TARGET_LANG_PARAM}
    ensures SOURCE_LANG_PARAM in params <==> selectedSourceLang != ""
    ensures TARGET_LANG_PARAM in params <==> selectedTargetLang != ""
    ensures SOURCE_LANG_PARAM in params ==> params[SOURCE_LANG_PARAM] == selectedSourceLang
    ensures TARGET_LANG_PARAM in params ==> params[TARGET_LANG_PARAM] == selectedTargetLang
  {
    params := map[];
    if selectedSourceLang != "" {
      params := params[SOURCE_LANG_PARAM := selectedSourceLang];
    }
    if selectedTargetLang != "" {
      params := params[TARGET_LANG_PARAM := selectedTargetLang];
    }
  }

  /** The terms state after a fetch: the response, or nothing when the request failed. */
  function TermsAfterFetch(response: Option<seq<Term>>): (r: seq<Term>)
    ensures response.None? ==> r == []
    ensures response.Some? ==> r == response.value
  {
    response.GetOr([])
  }

  // ---------------------------------------------------------------------------------------
  // The search
  // ---------------------------------------------------------------------------------------

  /** The term matches the (already lower-cased) query in its source term, its target term or
      a non-empty description. */
  function Matches(t: Term, query: string): (r: bool)
    ensures query == "" ==> r
    ensures t.description.None? ==>
      (r <==> Contains(ToLower(t.sourceTerm), query) || Contains(ToLower(t.targetTerm), query))
  {
    ContainsEmpty(ToLower(t.sourceTerm), query);
    Contains(ToLower(t.sourceTerm), query) ||
    Contains(ToLower(t.targetTerm), query) ||
    (t.description.Some? && t.description.value != "" && Contains(ToLower(t.description.value), query))
  }

  /** `filteredTerms`: a blank search shows every term; otherwise the lower-cased query,
      untrimmed, must occur in a field. */
  function FilteredTerms(terms: seq<Term>, searchTerm: string): (r: seq<Term>)
    ensures IsSubsequenceOf(r, terms)
  {
    if Trim(searchTerm) == "" then
      FilterIsSubsequence(terms, (t: Term) => true);
      FilterAll(terms, (t: Term) => true);
      terms
    else
      var query := ToLower(searchTerm);
      FilterIsSubsequence(terms, (t: Term) => Matches(t, query));
      Filter(terms, (t: Term) => Matches(t, query))
  }

  /** A blank search is not a filter. */
  lemma BlankSearchShowsAll(terms: seq<Term>, searchTerm: string)
    requires IsBlank(searchTerm)
    ensures FilteredTerms(terms, searchTerm) == terms
  {
  }

  /** Otherwise a term is shown exactly when it is one of the terms and matches, and it is shown
      as often as it occurs. */
  lemma SearchKeepsExactlyMatches(terms: seq<Term>, searchTerm: string, t: Term)
    requires !IsBlank(searchTerm)
    ensures t in FilteredTerms(terms, searchTerm) <==> t in terms && Matches(t, ToLower(searchTerm))
    ensures multiset(FilteredTerms(terms, searchTerm))[t]
      == if Matches(t, ToLower(searchTerm)) then multiset(terms)[t] else 0
  {
    var query := ToLower(searchTerm);
    FilterMembership(terms, (u: Term) => Matches(u, query), t);
    FilterMultiplicity(terms, (u: Term) => Matches(u, query), t);
  }

  /** A term without a description is found only through its source or target term. */
  lemma NoDescriptionMatchesByTerms(terms: seq<Term>, searchTerm: string, t: Term)
    requires !IsBlank(searchTerm) && t.description.None?
    requires t in FilteredTerms(terms, searchTerm)
    ensures Contains(ToLower(t.sourceTerm), ToLower(searchTerm)) || Contains(ToLower(t.targetTerm), ToLower(searchTerm))
  {
    SearchKeepsExactlyMatches(terms, searchTerm, t);
  }

  /** The search ignores letter case in the query. */
  lemma SearchIgnoresCase(terms: seq<Term>, searchTerm: string)
    ensures FilteredTerms(terms, ToLower(searchTerm)) == FilteredTerms(terms, searchTerm)
  {
    LowerKeepsBlank(searchTerm);
    ToLowerIdempotent(searchTerm);
  }

  lemma ToLowerIdempotent(s: string)
    ensures ToLower(ToLower(s)) == ToLower(s)
  {
  }

  lemma LowerKeepsBlank(s: string)
    ensures Trim(ToLower(s)) == "" <==> Trim(s) == ""
  {
    assert IsBlank(ToLower(s)) <==> IsBlank(s) by {
      forall i | 0 <= i < |s| ensures IsWhitespace(ToLower(s)[i]) <==> IsWhitespace(s[i]) {
      }
    }
  }

  // ---------------------------------------------------------------------------------------
  // The page state and the forms
  // ---------------------------------------------------------------------------------------

  /** `CreateTermRequest` as the form holds it. */
  datatype FormData = FormData(
    sourceTerm: string,
    targetTerm: string,
    sourceLang: string,
    targetLang: string,
    description: string)

  /** The empty form: no terms, English to Korean, no description. */
  const EMPTY_FORM := FormData("", "", "EN", "KO", "")

  /** The edit form for a term; a missing description becomes `''`. */
  function FormOf(t: Term): (f: FormData)
    ensures f.description == t.description.GetOr("")
  {
    FormData(t.sourceTerm, t.targetTerm, t.sourceLang, t.targetLang, t.description.GetOr(""))
  }

  /** The term a form describes, with an empty description read as none. */
  function TermOf(id: int, f: FormData): Term {
    Term(id, f.sourceTerm, f.targetTerm, f.sourceLang, f.targetLang, if f.description == "" then None else Some(f.description))
  }

  /** The edit form loses nothing about a term, except that an empty description and no
      description cannot be told apart. */
  lemma EditFormRoundTrip(t: Term)
    ensures t.description != Some("") ==> TermOf(t.id, FormOf(t)) == t
    ensures t.description == Some("") ==> TermOf(t.id, FormOf(t)) == t.(description := None)
    ensures FormOf(TermOf(t.id, FormOf(t))) == FormOf(t)
  {
  }

  /** The glossary page's state. */
  class GlossaryPage {
    var terms: seq<Term>
    var loading: bool
    var searchTerm: string
    var selectedSourceLang: string
    var selectedTargetLang: string
    var isAddModalOpen: bool
    var isEditModalOpen: bool
    var selectedTerm: Option<Term>
    var formData: FormData

    constructor ()
      ensures terms == [] && loading && searchTerm == "" && selectedSourceLang == "" && selectedTargetLang == ""
      ensures !isAddModalOpen && !isEditModalOpen && selectedTerm.None? && formData == EMPTY_FORM
    {
      terms, loading, searchTerm := [], true, "";
      selectedSourceLang, selectedTargetLang := "", "";
      isAddModalOpen, isEditModalOpen, selectedTerm := false, false, None;
      formData := EMPTY_FORM;
    }

    /** The rows the table shows. */
    function Visible(): seq<Term>
      reads this
    {
      FilteredTerms(terms, searchTerm)
    }

    /** The fetch finished: its terms, or none on failure; loading ends either way. */
    method ReceiveTerms(response: Option<seq<Term>>)
      modifies this`terms, this`loading
      ensures terms == TermsAfterFetch(response) && !loading
    {
      if response.Some? {
        terms := response.value;
      } else {
        terms := [];
      }
      loading := false;
    }

    method SetSearchTerm(q: string)
      modifies this`searchTerm
      ensures searchTerm == q
    {
      searchTerm := q;
    }

    /** `handleAddClick` */
    method HandleAddClick()
      modifies this`formData, this`isAddModalOpen
      ensures formData == EMPTY_FORM && isAddModalOpen
    {
      formData := FormData("", "", "EN", "KO", "");
      isAddModalOpen := true;
    }

    /** `handleEditClick(term)` */
    method HandleEditClick(t: Term)
      modifies this`selectedTerm, this`formData, this`isEditModalOpen
      ensures selectedTerm == Some(t) && formData == FormOf(t) && isEditModalOpen
    {
      selectedTerm := Some(t);
      formData := FormData(t.sourceTerm, t.targetTerm, t.sourceLang, t.targetLang,
        if t.description.Some? && t.description.value != "" then t.description.value else "");
      isEditModalOpen := true;
    }
  }
}
