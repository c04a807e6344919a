/** The `/search` handler (app.py:23-38): an empty query goes back to the
    home page, otherwise the first suggestion the catalog API returns for the
    query is opened. */
module Search {
  import opened Python
  import opened Catalog

  datatype SearchOutcome =
    | RedirectToIndex                  // redirect(url_for('index'))
    | NoAnimeFound                     // the plain text "No anime found."
    | RedirectToAnime(animeId: string) // redirect(url_for('anime', anime_id=...))
    | Raised(exc: PyException)

  const NO_ANIME_FOUND := "No anime found."

  /** The query Python sees: `request.args.get('query', '')`. */
  function QueryText(query: Option<string>): string
  {
    if query.Some? then query.value else ""
  }

  /** The suggestion list as Python sees it:
      `res.get("data", {}).get("suggestions", [])`, where `None` stands for a
      JSON null. */
  function Suggestions(res: SuggestionResponse): Result<Option<seq<Suggestion>>>
  {
    match Get(res.data, SuggestionData(Absent))
    case None => Raise(AttributeError)
    case Some(d) => Ok(Get(d.suggestions, []))
  }

  /** `search()` for the request's `query` argument. */
  function Search(api: Api, query: Option<string>): (r: SearchOutcome)
    ensures r == RedirectToIndex <==> QueryText(query) == ""
    ensures r == NoAnimeFound <==>
      && QueryText(query) != ""
      && var s := Suggestions(api.suggestion(QueryText(query))); s.Ok? && EmptyOrNone(s.value)
    ensures r.RedirectToAnime? <==>
      && QueryText(query) != ""
      && var s := Suggestions(api.suggestion(QueryText(query)));
      && s.Ok? && !EmptyOrNone(s.value) && s.value.value[0].id.Present?
    ensures r.RedirectToAnime? ==>
      r.animeId == Suggestions(api.suggestion(QueryText(query))).value.value[0].id.value
  {
    var q := QueryText(query);
    if q == "" then RedirectToIndex
    else
      match Suggestions(api.suggestion(q))
      case Raise(e) => Raised(e)
      case Ok(None) => NoAnimeFound
      case Ok(Some(list)) =>
        if list == [] then NoAnimeFound
        else
          match list[0].id
          case Absent => Raised(KeyError)
          case Null => Raised(BuildError)
          case Present(id) => RedirectToAnime(id)
  }

  /** The text of a plain-text outcome. */
  function Text(r: SearchOutcome): Option<string>
  {
    if r == NoAnimeFound then Some(NO_ANIME_FOUND) else None
  }

  /** The text "No anime found." is answered exactly when the query is not
      empty and the catalog lists no suggestion for it. */
  lemma NoAnimeFoundText(api: Api, query: Option<string>)
    ensures Text(Search(api, query)) == Some("No anime found.") <==>
      && QueryText(query) != ""
      && var s := Suggestions(api.suggestion(QueryText(query))); s.Ok? && EmptyOrNone(s.value)
  {
  }

  /** Only the first suggestion matters: two answers to the same query that
      agree on whether there are suggestions, and on the first one, give the
      same outcome. */
  lemma SearchUsesFirstSuggestionOnly(api: Api, api': Api, query: Option<string>)
    requires var q := QueryText(query);
      var s, s' := Suggestions(api.suggestion(q)), Suggestions(api'.suggestion(q));
      && s.Ok? == s'.Ok?
      && (s.Ok? ==> EmptyOrNone(s.value) == EmptyOrNone(s'.value))
      && (s.Ok? && !EmptyOrNone(s.value) ==> s.value.value[0] == s'.value.value[0])
      && (s.Raise? ==> s == s')
    ensures Search(api, query) == Search(api', query)
  {
  }
}
