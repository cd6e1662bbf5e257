/** `BasicSearch`: a query and a search engine, formatted and turned into a
    URL descriptor. Nothing is actually searched. */
module Search {
  import opened Types

  /** What `search` returns: a URL and where to open it. */
  datatype SearchResult = SearchResult(url: string, target: URLTarget)

  /** A `BasicSearch`; both fields are read-only after construction, and the
      engine is stored as given, so `None` when the caller omitted it. */
  datatype BasicSearch = BasicSearch(query: string, searchEngine: Option<string> := None) {

    /** The engine in use: the one given, or Google when it was omitted. */
    function Engine(): (e: string)
      ensures searchEngine.Some? ==> e == searchEngine.value
      ensures searchEngine.None? ==> e == "Google"
    {
      match searchEngine
      case Some(name) => name
      case None => "Google"
    }

    /** The formatted query. `render` is the unstated template combining the
        user shown and the query; a blank username shows as "Anonymous". */
    function FormatQuery(username: Option<string>, render: (string, string) -> string): (r: string)
      ensures Filled(username) ==> r == render(username.value, query)
      ensures !Filled(username) ==> r == render("Anonymous", query)
    {
      render(if Filled(username) then username.value else "Anonymous", query)
    }

    /** The search descriptor. `buildUrl` is the unstated URL template over the
        engine and the query; the target given comes back unchanged. */
    function Search(target: URLTarget, buildUrl: (string, string) -> string): (r: SearchResult)
      ensures r.target == target
      ensures r.url == buildUrl(Engine(), query)
    {
      SearchResult(buildUrl(Engine(), query), target)
    }

    /** `search` called with a target literal: one of the four names is passed
        through, any other string is refused. */
    function SearchByName(target: string, buildUrl: (string, string) -> string)
      : (r: Result<SearchResult, Error>)
      ensures r.Ok? <==> target in {"_blank", "_self", "_parent", "_top"}
      ensures r.Ok? ==> r.value.target.Name() == target && r.value.url == buildUrl(Engine(), query)
      ensures r.Err? ==> r.error == UnknownTarget(target)
    {
      match ParseTarget(target)
      case Some(t) => Ok(Search(t, buildUrl))
      case None => Err(UnknownTarget(target))
    }
  }

  /** Omitting the username is the same as passing "Anonymous". */
  lemma FormatQueryDefault(s: BasicSearch, render: (string, string) -> string)
    ensures s.FormatQuery(None, render) == s.FormatQuery(Some("Anonymous"), render)
    ensures s.FormatQuery(Some(""), render) == s.FormatQuery(Some("Anonymous"), render)
  {
  }

  /** Omitting the engine is the same as naming Google. */
  lemma SearchEngineDefault(query: string, t: URLTarget, buildUrl: (string, string) -> string)
    ensures BasicSearch(query).Search(t, buildUrl) == BasicSearch(query, Some("Google")).Search(t, buildUrl)
  {
  }

  /** The target comes back whichever of the four it was, and the URL does not
      depend on it; a named statement of the pass-through property, comparing
      two calls, that follows from the contract of `Search`. */
  lemma SearchTargetPassthrough(s: BasicSearch, t1: URLTarget, t2: URLTarget, buildUrl: (string, string) -> string)
    ensures s.Search(t1, buildUrl).target == t1
    ensures s.Search(t1, buildUrl).url == s.Search(t2, buildUrl).url
  {
  }
}
