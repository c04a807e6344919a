/** The `/anime/<anime_id>` handler (app.py:99-142): picks the episode to
    show (the `episode` query argument, else the `<anime_id>_last` cookie,
    else 1), checks it against the episode count, looks up that episode's
    id, takes the first subtitled server and the first source it offers, and
    renders the page while remembering the episode in the cookie. */
module AnimePage {
  import opened Python
  import opened Catalog

  /** A cookie the response sets: name, value and `max_age` in seconds. */
  datatype Cookie = Cookie(name: string, value: string, maxAge: int)

  datatype AnimeOutcome =
    | EpisodeNotAvailable(episode: int)  // the plain text "Episode {n} not available."
    | NoServers                          // the plain text "No available servers for this episode."
    | Page(
        anime: Option<JsonObject>,       // the template's `anime`
        episodes: seq<Episode>,          // the template's `episodes`
        currentEp: int,                  // the template's `current_ep`
        episodeId: Option<string>,       // the id the servers and sources were asked for
        server: Option<string>,          // the server the sources were asked for
        embedUrl: Option<string>,        // the template's `embed_url`
        cookie: Cookie)                  // the cookie the response sets
    | Raised(exc: PyException)

  const NO_SERVERS := "No available servers for this episode."

  /** `max_age=30*24*60*60`: thirty days. */
  const COOKIE_MAX_AGE := 30 * 24 * 60 * 60

  /** The cookie that remembers the last episode shown of a title. */
  function CookieName(animeId: string): string
  {
    animeId + "_last"
  }

  /** The text `int()` is applied to:
      `request.args.get('episode', request.cookies.get(f"{anime_id}_last", "1"))`. */
  function EpisodeText(animeId: string, episodeArg: Option<string>, cookies: map<string, string>): string
  {
    if episodeArg.Some? then episodeArg.value
    else if CookieName(animeId) in cookies then cookies[CookieName(animeId)]
    else "1"
  }

  /** The data object of an answer, as `res.get("data", {})` gives it. */
  function EpisodesDataOf(res: EpisodesResponse): Option<EpisodesData>
  {
    Get(res.data, EpisodesData(Absent, Absent))
  }

  /** The range check `episode_num < 1 or episode_num > total_eps`, where
      `total_eps` is `None` for a JSON null: Python evaluates the second
      comparison only when the first is false, and comparing an int with
      `None` raises `TypeError`. */
  function OutOfRange(n: int, total: Option<int>): Result<bool>
  {
    if n < 1 then Ok(true)
    else if total.None? then Raise(TypeError)
    else Ok(n > total.value)
  }

  /** What the handler chooses among the sub servers:
      `sub_servers[0]["serverName"]`, or nothing when the list is empty or
      `None`. */
  datatype ServerChoice = NoServer | FirstServer(name: Option<string>)

  function ChooseServer(res: ServersResponse): (r: Result<ServerChoice>)
    ensures r == Ok(NoServer) <==>
      res.data != Null && var d := Get(res.data, ServersData(Absent)).value; EmptyOrNone(Get(d.sub, []))
    ensures r.Ok? && r.value.FirstServer? ==>
      && res.data.Present? && res.data.value.sub.Present? && res.data.value.sub.value != []
      && r.value.name == GetOrNone(res.data.value.sub.value[0].serverName)
  {
    match Get(res.data, ServersData(Absent))
    case None => Raise(AttributeError)
    case Some(d) =>
      var sub := Get(d.sub, []);
      if EmptyOrNone(sub) then Ok(NoServer)
      else
        match Subscript(sub.value[0].serverName)
        case Raise(e) => Raise(e)
        case Ok(name) => Ok(FirstServer(name))
  }

  /** `embed_url = sources[0]["url"] if sources else None`. */
  function ChooseEmbedUrl(res: SourcesResponse): (r: Result<Option<string>>)
    ensures (r.Ok? && res.data != Null &&
             EmptyOrNone(Get(Get(res.data, SourcesData(Absent)).value.sources, []))) ==> r.value.None?
    ensures r.Ok? && r.value.Some? ==>
      && res.data.Present? && res.data.value.sources.Present? && res.data.value.sources.value != []
      && res.data.value.sources.value[0].url == Present(r.value.value)
  {
    match Get(res.data, SourcesData(Absent))
    case None => Raise(AttributeError)
    case Some(d) =>
      var sources := Get(d.sources, []);
      if EmptyOrNone(sources) then Ok(None)
      else Subscript(sources.value[0].url)
  }

  /** `anime(anime_id)` for the request's `episode` argument and cookies;
      `parseInt` is Python's `int()` on a text, `None` where it raises
      `ValueError`. */
  function Anime(api: Api, parseInt: string -> Option<int>, animeId: string,
                 episodeArg: Option<string>, cookies: map<string, string>): (r: AnimeOutcome)
    ensures r.Page? ==>
      && 1 <= r.currentEp <= |r.episodes|
      && r.cookie == Cookie(CookieName(animeId), IntToStr(r.currentEp), COOKIE_MAX_AGE)
    ensures r.EpisodeNotAvailable? ==>
      r.episode < 1 || (CatalogAnswered(api, animeId) && Total(api, animeId).Some? && r.episode > Total(api, animeId).value)
  {
    match Get(api.anime(animeId).data, InfoData(Absent))
    case None => Raised(AttributeError)
    case Some(info) =>
      var anime := Get(info.anime, map[]);
      match EpisodesDataOf(api.episodes(animeId))
      case None => Raised(AttributeError)
      case Some(epData) =>
        var episodes := Get(epData.episodes, []);
        var total := Get(epData.totalEpisodes, 0);
        match parseInt(EpisodeText(animeId, episodeArg, cookies))
        case None => Raised(ValueError)
        case Some(n) =>
          match OutOfRange(n, total)
          case Raise(e) => Raised(e)
          case Ok(true) => EpisodeNotAvailable(n)
          case Ok(false) =>
            if episodes.None? then Raised(TypeError)
            else if n - 1 >= |episodes.value| then Raised(IndexError)
            else
              var epId := GetOrNone(episodes.value[n - 1].episodeId);
              match ChooseServer(api.servers(epId))
              case Raise(e) => Raised(e)
              case Ok(NoServer) => NoServers
              case Ok(FirstServer(server)) =>
                match ChooseEmbedUrl(api.sources(epId, server))
                case Raise(e) => Raised(e)
                case Ok(embedUrl) =>
                  Page(anime, episodes.value, n, epId, server, embedUrl,
                       Cookie(CookieName(animeId), IntToStr(n), COOKIE_MAX_AGE))
  }

  /** The text of a plain-text outcome. */
  function Text(r: AnimeOutcome): Option<string>
  {
    match r
    case EpisodeNotAvailable(n) => Some("Episode " + IntToStr(n) + " not available.")
    case NoServers => Some(NO_SERVERS)
    case _ => None
  }

  /** Both upstream answers the handler reads before choosing an episode
      have a data object (`"data"` is not `null`). */
  predicate CatalogAnswered(api: Api, animeId: string)
  {
    api.anime(animeId).data != Null && api.episodes(animeId).data != Null
  }

  /** The episode count as Python sees it: `get("totalEpisodes", 0)`. */
  function Total(api: Api, animeId: string): Option<int>
    requires CatalogAnswered(api, animeId)
  {
    Get(EpisodesDataOf(api.episodes(animeId)).value.totalEpisodes, 0)
  }

  /** The episode list as Python sees it: `get("episodes", [])`. */
  function EpisodeList(api: Api, animeId: string): Option<seq<Episode>>
    requires CatalogAnswered(api, animeId)
  {
    Get(EpisodesDataOf(api.episodes(animeId)).value.episodes, [])
  }

  /** The episode number comes from the `episode` query argument when there
      is one, whatever the cookie says; else from the `<anime_id>_last`
      cookie; else it is 1. */
  lemma EpisodeArgumentPriority(api: Api, parseInt: string -> Option<int>, animeId: string,
                                episodeArg: Option<string>, cookies: map<string, string>,
                                cookies': map<string, string>)
    ensures episodeArg.Some? ==>
      Anime(api, parseInt, animeId, episodeArg, cookies) == Anime(api, parseInt, animeId, episodeArg, cookies')
    ensures episodeArg.None? && CookieName(animeId) in cookies ==>
      Anime(api, parseInt, animeId, None, cookies) == Anime(api, parseInt, animeId, Some(cookies[CookieName(animeId)]), cookies)
    ensures episodeArg.None? && CookieName(animeId) !in cookies ==>
      Anime(api, parseInt, animeId, None, cookies) == Anime(api, parseInt, animeId, Some("1"), cookies)
  {
  }

  /** The episode number an outcome reports is `int()` of the chosen text. */
  lemma ReportedEpisodeIsParsed(api: Api, parseInt: string -> Option<int>, animeId: string,
                                episodeArg: Option<string>, cookies: map<string, string>)
    ensures var r := Anime(api, parseInt, animeId, episodeArg, cookies);
      var n := parseInt(EpisodeText(animeId, episodeArg, cookies));
      && (r.Page? ==> n == Some(r.currentEp))
      && (r.EpisodeNotAvailable? ==> n == Some(r.episode))
      && (r == Raised(ValueError) <==> CatalogAnswered(api, animeId) && n.None?)
  {
  }

  /** With neither an `episode` argument nor a cookie, the page shows
      episode 1. */
  lemma DefaultEpisodeIsFirst(api: Api, parseInt: string -> Option<int>, animeId: string,
                              cookies: map<string, string>)
    requires parseInt("1") == Some(1)
    requires CookieName(animeId) !in cookies
    ensures var r := Anime(api, parseInt, animeId, None, cookies);
      r.Page? ==> r.currentEp == 1
  {
  }

  /** An episode number below 1 or above `totalEpisodes` gives exactly the
      "not available" text, whatever the episode list, the servers and the
      sources are: no episode is looked up and no server is asked for. */
  lemma OutOfRangeEpisode(api: Api, parseInt: string -> Option<int>, animeId: string,
                          episodeArg: Option<string>, cookies: map<string, string>,
                          episodes: Field<seq<Episode>>,
                          servers: Option<string> -> ServersResponse,
                          sources: (Option<string>, Option<string>) -> SourcesResponse)
    requires CatalogAnswered(api, animeId)
    requires parseInt(EpisodeText(animeId, episodeArg, cookies)).Some?
    ensures var n := parseInt(EpisodeText(animeId, episodeArg, cookies)).value;
      var total := Total(api, animeId);
      var r := Anime(api, parseInt, animeId, episodeArg, cookies);
      && (r == EpisodeNotAvailable(n) <==> n < 1 || (total.Some? && n > total.value))
      && (r == EpisodeNotAvailable(n) <==> Text(r) == Some("Episode " + IntToStr(n) + " not available."))
    ensures var n := parseInt(EpisodeText(animeId, episodeArg, cookies)).value;
      var total := Total(api, animeId);
      var data := EpisodesDataOf(api.episodes(animeId)).value;
      var other := api.(episodes := _ => EpisodesResponse(Present(data.(episodes := episodes))),
                        servers := servers, sources := sources);
      n < 1 || (total.Some? && n > total.value) ==>
        Anime(other, parseInt, animeId, episodeArg, cookies) == EpisodeNotAvailable(n)
  {
    var n := parseInt(EpisodeText(animeId, episodeArg, cookies)).value;
    if Anime(api, parseInt, animeId, episodeArg, cookies) == NoServers {
      assert NO_SERVERS[0] != ("Episode " + IntToStr(n) + " not available.")[0];
    }
  }

  /** Every rendered page shows an episode within `[1, totalEpisodes]` that
      the episode list has, asks for the servers of that episode's id and
      for the sources of the first server, and sets the `<anime_id>_last`
      cookie to the episode number for thirty days. */
  lemma PageShowsListedEpisode(api: Api, parseInt: string -> Option<int>, animeId: string,
                               episodeArg: Option<string>, cookies: map<string, string>)
    requires Anime(api, parseInt, animeId, episodeArg, cookies).Page?
    ensures CatalogAnswered(api, animeId)
    ensures var p := Anime(api, parseInt, animeId, episodeArg, cookies);
      var total := Total(api, animeId);
      var list := EpisodeList(api, animeId);
      && total.Some? && 1 <= p.currentEp <= total.value
      && list == Some(p.episodes) && p.currentEp <= |p.episodes|
      && p.episodeId == GetOrNone(p.episodes[p.currentEp - 1].episodeId)
      && ChooseServer(api.servers(p.episodeId)) == Ok(FirstServer(p.server))
      && ChooseEmbedUrl(api.sources(p.episodeId, p.server)) == Ok(p.embedUrl)
      && p.cookie == Cookie(CookieName(animeId), IntToStr(p.currentEp), COOKIE_MAX_AGE)
  {
  }

  /** The episode the handler settles on is one it looks up: the catalog
      answered, `int()` accepted the text, and the number lies within both
      `[1, totalEpisodes]` and the episode list. */
  predicate ListedEpisode(api: Api, parseInt: string -> Option<int>, animeId: string,
                          episodeArg: Option<string>, cookies: map<string, string>)
  {
    && CatalogAnswered(api, animeId)
    && parseInt(EpisodeText(animeId, episodeArg, cookies)).Some?
    && var n := parseInt(EpisodeText(animeId, episodeArg, cookies)).value;
    && Total(api, animeId).Some? && 1 <= n <= Total(api, animeId).value
    && EpisodeList(api, animeId).Some? && n <= |EpisodeList(api, animeId).value|
  }

  /** The id of the episode a listed number picks: `episodes[n-1].get("episodeId")`. */
  function ListedEpisodeId(api: Api, parseInt: string -> Option<int>, animeId: string,
                           episodeArg: Option<string>, cookies: map<string, string>): Option<string>
    requires ListedEpisode(api, parseInt, animeId, episodeArg, cookies)
  {
    var n := parseInt(EpisodeText(animeId, episodeArg, cookies)).value;
    GetOrNone(EpisodeList(api, animeId).value[n - 1].episodeId)
  }

  /** A listed episode whose servers answer with a missing, empty or `null`
      `sub` list gives exactly the text "No available servers for this
      episode.", whatever the sources are. */
  lemma NoSubServers(api: Api, parseInt: string -> Option<int>, animeId: string,
                     episodeArg: Option<string>, cookies: map<string, string>,
                     sources: (Option<string>, Option<string>) -> SourcesResponse)
    requires ListedEpisode(api, parseInt, animeId, episodeArg, cookies)
    ensures var r := Anime(api, parseInt, animeId, episodeArg, cookies);
      var d := api.servers(ListedEpisodeId(api, parseInt, animeId, episodeArg, cookies)).data;
      && (r == NoServers <==> d != Null && EmptyOrNone(Get(Get(d, ServersData(Absent)).value.sub, [])))
      && (r == NoServers <==> Text(r) == Some("No available servers for this episode."))
      && (r == NoServers ==> Anime(api.(sources := sources), parseInt, animeId, episodeArg, cookies) == NoServers)
  {
  }

  /** A listed episode whose first server offers no sources (an empty or
      `null` list) still renders its page, with no embed URL. */
  lemma NoSourcesStillRenders(api: Api, parseInt: string -> Option<int>, animeId: string,
                              episodeArg: Option<string>, cookies: map<string, string>)
    requires ListedEpisode(api, parseInt, animeId, episodeArg, cookies)
    requires var epId := ListedEpisodeId(api, parseInt, animeId, episodeArg, cookies);
      var choice := ChooseServer(api.servers(epId));
      && choice.Ok? && choice.value.FirstServer?
      && var d := api.sources(epId, choice.value.name).data;
      && d != Null && EmptyOrNone(Get(Get(d, SourcesData(Absent)).value.sources, []))
    ensures var r := Anime(api, parseInt, animeId, episodeArg, cookies);
      r.Page? && r.embedUrl.None? && r.episodeId == ListedEpisodeId(api, parseInt, animeId, episodeArg, cookies)
  {
  }

  /** On a rendered page the embed URL is `None` exactly when the chosen
      server has no sources (an empty or `null` list) or its first source's
      `url` is `null`; otherwise it is that `url`. */
  lemma EmbedUrlOfFirstSource(api: Api, parseInt: string -> Option<int>, animeId: string,
                              episodeArg: Option<string>, cookies: map<string, string>)
    requires Anime(api, parseInt, animeId, episodeArg, cookies).Page?
    ensures var p := Anime(api, parseInt, animeId, episodeArg, cookies);
      var d := api.sources(p.episodeId, p.server).data;
      var sources := Get(d, SourcesData(Absent)).value.sources;
      && d != Null
      && (p.embedUrl.None? <==>
            EmptyOrNone(Get(sources, [])) || sources.value[0].url == Null)
      && (p.embedUrl.Some? ==> sources.value[0].url == Present(p.embedUrl.value))
  {
  }

  /** The cookie a page sets brings the reader back to the same episode: a
      later request for the same title without an `episode` argument, with
      the cookie the page set, renders the same page again. */
  lemma CookieRemembersEpisode(api: Api, parseInt: string -> Option<int>, animeId: string,
                               episodeArg: Option<string>, cookies: map<string, string>)
    requires ReadsDecimals(parseInt)
    requires Anime(api, parseInt, animeId, episodeArg, cookies).Page?
    ensures var p := Anime(api, parseInt, animeId, episodeArg, cookies);
      Anime(api, parseInt, animeId, None, cookies[p.cookie.name := p.cookie.value]) == p
  {
    var p := Anime(api, parseInt, animeId, episodeArg, cookies);
    ParseDecimalOfIntToStr(p.currentEp);
  }
}
