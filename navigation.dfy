/** The NavigationManager as the redirect managers use it, and the outcome
    of a redirect. The URI library calls are parameters: each is a function the
    NavigationManager value carries, left uninterpreted. */
module Navigation {
  import opened Values

  datatype UriOps = UriOps(
    isWellFormedRelative: string -> bool,      // Uri.IsWellFormedUriString(_, UriKind.Relative)
    toBaseRelativePath: string -> string,      // NavigationManager.ToBaseRelativePath(_)
    toAbsoluteUri: string -> string,           // NavigationManager.ToAbsoluteUri(_).AbsoluteUri
    pathWithoutQuery: string -> string,        // NavigationManager.ToAbsoluteUri(_).GetLeftPart(UriPartial.Path)
    withQueryParameters: (string, map<string, Value>) -> string)  // GetUriWithQueryParameters

  /** The current request's URI, whether the page is being rendered
      statically (where NavigateTo signals a redirect), and the URI library. */
  datatype NavigationManager = NavigationManager(uri: string, staticRendering: bool, ops: UriOps)

  /** How a redirect leaves the handler. Neither case returns to the caller:
      Navigated is the redirect signal, InvalidUsage the InvalidOperationException
      raised when the manager is used outside static rendering. */
  datatype Outcome = Navigated(target: string) | InvalidUsage

  /** The destination RedirectTo navigates to: null becomes "", and a string
      that is not a well-formed relative URI is replaced by its base-relative path. */
  function Destination(nav: NavigationManager, uri: Option<string>): (target: string)
    ensures !nav.ops.isWellFormedRelative(uri.GetOr("")) ==> target == nav.ops.toBaseRelativePath(uri.GetOr(""))
    ensures nav.ops.isWellFormedRelative(uri.GetOr("")) ==> target == uri.GetOr("")
  {
    var u := uri.GetOr("");
    if nav.ops.isWellFormedRelative(u) then u else nav.ops.toBaseRelativePath(u)
  }

  /** The outcome of `RedirectTo(uri)`. */
  function Redirect(nav: NavigationManager, uri: Option<string>): (o: Outcome)
    ensures o.Navigated? <==> nav.staticRendering
    ensures o.Navigated? ==> o.target == Destination(nav, uri)
  {
    if nav.staticRendering then Navigated(Destination(nav, uri)) else InvalidUsage
  }

  /** A null destination is the empty one. */
  lemma NullIsEmpty(nav: NavigationManager)
    ensures Redirect(nav, None) == Redirect(nav, Some(""))
  {
  }

  /** The raw destination is navigated to unchanged only when it is a
      well-formed relative URI, or when the base-relative rewrite leaves it
      as it is. */
  lemma RawTargetOnlyIfRelative(nav: NavigationManager, uri: string)
    requires Redirect(nav, Some(uri)) == Navigated(uri)
    ensures nav.ops.isWellFormedRelative(uri) || nav.ops.toBaseRelativePath(uri) == uri
  {
  }
}
