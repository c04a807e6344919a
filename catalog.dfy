/** The JSON the anime-catalog API answers with, as far as app.py looks into
    it, and the endpoints themselves as functions of their request
    parameters. Every object key is a `Field`: missing, `null`, or a value. */
module Catalog {
  import opened Python

  /** A JSON object handed to a template without being looked into: each key
      with its value's JSON text. */
  type JsonObject = map<string, string>

  /** `GET /anime/{id}`: `{"data": {"anime": {...}}}`. */
  datatype InfoData = InfoData(anime: Field<JsonObject>)
  datatype InfoResponse = InfoResponse(data: Field<InfoData>)

  /** One entry of an episode list; its other keys only reach the template. */
  datatype Episode = Episode(episodeId: Field<string>)

  /** `GET /anime/{id}/episodes`: `{"data": {"episodes": [...], "totalEpisodes": n}}`. */
  datatype EpisodesData = EpisodesData(episodes: Field<seq<Episode>>, totalEpisodes: Field<int>)
  datatype EpisodesResponse = EpisodesResponse(data: Field<EpisodesData>)

  /** `GET /episode/servers`: `{"data": {"sub": [{"serverName": ...}, ...]}}`. */
  datatype Server = Server(serverName: Field<string>)
  datatype ServersData = ServersData(sub: Field<seq<Server>>)
  datatype ServersResponse = ServersResponse(data: Field<ServersData>)

  /** `GET /episode/sources`: `{"data": {"sources": [{"url": ...}, ...]}}`. */
  datatype Source = Source(url: Field<string>)
  datatype SourcesData = SourcesData(sources: Field<seq<Source>>)
  datatype SourcesResponse = SourcesResponse(data: Field<SourcesData>)

  /** `GET /search/suggestion`: `{"data": {"suggestions": [{"id": ...}, ...]}}`. */
  datatype Suggestion = Suggestion(id: Field<string>)
  datatype SuggestionData = SuggestionData(suggestions: Field<seq<Suggestion>>)
  datatype SuggestionResponse = SuggestionResponse(data: Field<SuggestionData>)

  /** The catalog API's endpoints, each as the decoded answer to its request
      parameters. A parameter whose value is `None` is left out of the
      request, so it is passed as an `Option`. */
  datatype Api = Api(
    anime: string -> InfoResponse,                                // /anime/{anime_id}
    episodes: string -> EpisodesResponse,                         // /anime/{anime_id}/episodes
    servers: Option<string> -> ServersResponse,                   // /episode/servers?animeEpisodeId=
    sources: (Option<string>, Option<string>) -> SourcesResponse, // /episode/sources?animeEpisodeId=&server=&category=sub
    suggestion: string -> SuggestionResponse)                     // /search/suggestion?q=
}
