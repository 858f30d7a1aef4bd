/**
 * The error boundary wrapped around the pages: after a render error it shows a fallback
 * (the one it was given, else a default view with an optional developer panel) until reset.
 */
module ErrorBoundary {
  import opened Wrappers

  /** A thrown `Error`. */
  datatype Error = Error(name: string, message: string)

  /** React's `ErrorInfo`. */
  datatype ErrorInfo = ErrorInfo(componentStack: string)

  /** The component's `state`. */
  datatype BoundaryState = BoundaryState(hasError: bool, error: Option<Error>, errorInfo: Option<ErrorInfo>)

  const INITIAL_STATE := BoundaryState(false, None, None)

  /** A React node as a value: only its truthiness matters here. */
  datatype ReactNode = ElementNode(name: string) | StringNode(s: string) | NumberNode(n: int)

  predicate Truthy(n: ReactNode) {
    match n
    case ElementNode(_) => true
    case StringNode(s) => s != ""
    case NumberNode(k) => k != 0
  }

  /** `Error.prototype.toString` */
  function ErrorText(e: Error): (t: string)
    ensures e.name == "" ==> t == e.message
    ensures e.message == "" ==> t == e.name
    ensures e.name != "" && e.message != "" ==> t == e.name + ": " + e.message
  {
    if e.name == "" then e.message
    else if e.message == "" then e.name
    else e.name + ": " + e.message
  }

  /** `getDerivedStateFromError(error)`: the next render shows the fallback. */
  function GetDerivedStateFromError(e: Error): (st: BoundaryState)
    ensures st.hasError && st.error == Some(e) && st.errorInfo.None?
  {
    BoundaryState(true, Some(e), None)
  }

  /** The state after `componentDidCatch(error, errorInfo)` merges its `setState`: `hasError` stays. */
  function AfterDidCatch(st: BoundaryState, e: Error, info: ErrorInfo): (r: BoundaryState)
    ensures r.hasError == st.hasError && r.error == Some(e) && r.errorInfo == Some(info)
  {
    st.(error := Some(e), errorInfo := Some(info))
  }

  /** The developer panel: the error's text, and the component stack when there is one. */
  datatype Details = Details(errorText: string, componentStack: Option<string>)

  datatype View =
    | Children
    | ShowFallback(node: ReactNode)
    | DefaultView(details: Option<Details>)

  /** `render()`; `development` is `process.env.NODE_ENV === 'development'`. */
  function Render(st: BoundaryState, fallback: Option<ReactNode>, development: bool): (v: View)
    ensures v.Children? <==> !st.hasError
    ensures v.ShowFallback? <==> st.hasError && fallback.Some? && Truthy(fallback.value)
    ensures v.ShowFallback? ==> v.node == fallback.value
    ensures v.DefaultView? ==> (v.details.Some? <==> development && st.error.Some?)
    ensures v.DefaultView? && v.details.Some? ==>
      v.details.value.errorText == ErrorText(st.error.value) &&
      (v.details.value.componentStack.Some? <==> st.errorInfo.Some?)
  {
    if !st.hasError then Children
    else if fallback.Some? && Truthy(fallback.value) then ShowFallback(fallback.value)
    else if development && st.error.Some? then
      DefaultView(Some(Details(
        ErrorText(st.error.value),
        if st.errorInfo.Some? then Some(st.errorInfo.value.componentStack) else None)))
    else DefaultView(None)
  }

  /** A caught error, in the order React delivers it, then a reset: in between the default view
      shows the error and the component stack in development, and `INITIAL_STATE`, which
      `Boundary.HandleReset` restores from any state, renders the children again. */
  lemma CatchThenReset(e: Error, info: ErrorInfo)
    ensures var caught := AfterDidCatch(GetDerivedStateFromError(e), e, info);
      Render(caught, None, true) == DefaultView(Some(Details(ErrorText(e), Some(info.componentStack)))) &&
      Render(caught, None, false) == DefaultView(None) &&
      Render(INITIAL_STATE, None, true) == Children
  {
  }

  /** The boundary component and its state. */
  class Boundary {
    var hasError: bool
    var error: Option<Error>
    var errorInfo: Option<ErrorInfo>
    const fallback: Option<ReactNode>

    function State(): BoundaryState
      reads this
    {
      BoundaryState(hasError, error, errorInfo)
    }

    /** `constructor(props)` */
    constructor (fallback: Option<ReactNode>)
      ensures State() == INITIAL_STATE && this.fallback == fallback
    {
      this.fallback := fallback;
      hasError, error, errorInfo := false, None, None;
    }

    /** A descendant threw while rendering: React applies `getDerivedStateFromError`. */
    method ApplyDerivedState(e: Error)
      modifies this
      ensures State() == GetDerivedStateFromError(e)
    {
      var st := GetDerivedStateFromError(e);
      hasError, error, errorInfo := st.hasError, st.error, st.errorInfo;
    }

    /** `componentDidCatch(error, errorInfo)`; the console logging is not modelled. */
    method ComponentDidCatch(e: Error, info: ErrorInfo)
      modifies this
      ensures State() == AfterDidCatch(old(State()), e, info)
    {
      error, errorInfo := Some(e), Some(info);
    }

    /** `handleReset` */
    method HandleReset()
      modifies this
      ensures State() == INITIAL_STATE
    {
      hasError, error, errorInfo := false, None, None;
    }

    function View(development: bool): View
      reads this
    {
      Render(State(), fallback, development)
    }
  }
}
