# cinemora: the decision logic of a Flask front end for two anime APIs

cinemora is a small Flask application (`app.py`). It turns the JSON of an
anime-catalog REST API and of the AniList GraphQL API into HTML pages. This
project models, as pure Dafny functions over the JSON already fetched, the
four places where `app.py` decides something:

- `format_anime_name`: turning a title into a URL slug (module `Slug`);
- the `/search` handler: go back to the home page, answer "No anime found.",
  or open the first suggestion (module `Search`);
- the `/anime/<anime_id>` handler: choose the episode number (the `episode`
  query argument, else the `<anime_id>_last` cookie, else 1), check it
  against `totalEpisodes`, look up that episode's id, take the first
  subtitled server and the first source it offers, and remember the episode
  in the cookie (module `AnimePage`);
- `fetch_anime_details_from_anilist` and the `/details/<name>` handler:
  "Anime not found." for a failed or empty lookup, otherwise a flat record
  of nine fields with fixed fallback texts (module `AniList`).

How the model represents Python:

- Every key of a decoded JSON object is a `Field`: `Absent`, `Null`, or
  `Present(value)`. So `obj.get(key, default)` gives the default only for a
  missing key and gives `None` for a JSON `null`, as Python does.
- An exception the handler does not catch is an outcome of its own,
  `Raised(exc)`. These are: `KeyError` from `obj["key"]`, `AttributeError`
  from `.get` on `None`, `TypeError` from subscripting `None` or comparing an
  int with `None`, `IndexError`, `ValueError` from `int()`, and `BuildError`
  from `url_for` given `None` for a path argument.
- The catalog endpoints are function-typed fields of `Catalog.Api`, so the
  model states which episode id the servers are asked for, and which server
  the sources are asked for. The AniList endpoint is a function from the
  searched name to its answer.
- Python's `int()` on the episode text is a parameter, `parseInt`.
  `Python.ParseDecimal` is the part of `int()` that reads back what `str()`
  writes.

Module `Python` holds these runtime pieces. Module `Catalog` holds the
response shapes of the catalog API.

Where the code differs from a plain reading of its intent, the model
follows the code:

- A `null` `sub` list counts as "no servers" (`not None` is true). A `null`
  source list gives no embed URL.
- A JSON `null` for `totalEpisodes` makes any episode number of at least 1
  raise `TypeError`. A number below 1 still gets the "not available" text,
  because `or` stops after the first comparison.
- An `episode` query argument that is present wins over the cookie even
  when `int()` rejects it, and then the request fails with `ValueError`.
- "Not found" from AniList means any status other than exactly 200.
- The AniList fallback texts replace only missing keys. A key that is
  present with `null` shows as `None`. A `null` start year makes the start
  date begin with `None-`.
- A `null` title, start date or cover image raises `AttributeError`.
- An empty search query, or a missing one, redirects to the home page.

## Model

| member | source | states |
|---|---|---|
| `Slug.FormatAnimeName` | app.py:9-11 | the slug of an ASCII name is ASCII, contains no whitespace character and no upper-case letter |
| `Slug.FormatAnimeNameIdempotent` | app.py:9-11 | formatting a slug again changes nothing |
| `Slug.FormatAnimeNameFixedPoint` | app.py:9-11 | a text is left unchanged exactly when it is already a slug (ASCII, no whitespace, no upper case) |
| `Slug.FormatAnimeNameJoinsWords` | app.py:10-11 | the slug is the name's whitespace-separated words, each lower-cased, joined with `-`; runs of whitespace and whitespace at either end make no difference |
| `Slug.FormatAnimeNameEmpty` | app.py:10-11 | the slug is empty exactly when the name is all whitespace |
| `Slug.Split` | app.py:10 | `str.split()` gives nonempty words without whitespace; where they break is stated by `SplitAtSpace` and `SplitOfWord` |
| `Slug.SplitKeepsNonSpace` | app.py:10 | the words of `str.split()`, put back together, are exactly the non-whitespace characters of the text, in order |
| `Slug.SplitEmpty` | app.py:10 | `str.split()` finds no word exactly when the text is all whitespace |
| `Slug.SplitAtSpace` | app.py:10 | a whitespace character splits the text into the words before it and the words after it; with `SplitOfWord` this fixes `str.split()` on every text |
| `Slug.SplitOfWord` | app.py:10 | a nonempty text without whitespace is one word |
| `Search.Search` | app.py:24-38 | an empty or missing query redirects to the index; otherwise "No anime found." exactly when the suggestion list for that query is empty or `null`; a redirect to an anime exactly when the first suggestion has an `id`, and to that id |
| `Search.NoAnimeFoundText` | app.py:26-33 | the text "No anime found." is answered exactly when the query is not empty and the suggestion list is empty or `null` |
| `Search.SearchUsesFirstSuggestionOnly` | app.py:32-38 | two answers to the same query that agree on whether there are suggestions and on the first one give the same outcome |
| `AnimePage.Anime` | app.py:101-142 | a rendered page shows an episode in `[1, len(episodes)]` and sets cookie `<anime_id>_last` to `str(episode)` for 30 days; a "not available" outcome has a number below 1 or above `totalEpisodes` |
| `AnimePage.EpisodeArgumentPriority` | app.py:112 | with an `episode` argument the cookie makes no difference; without one, the cookie acts as the argument; with neither, the argument is `"1"` |
| `AnimePage.ReportedEpisodeIsParsed` | app.py:112 | the episode number of a page or a "not available" outcome is `int()` of the chosen text; `ValueError` exactly when `int()` rejects it |
| `AnimePage.DefaultEpisodeIsFirst` | app.py:112 | with neither an argument nor a cookie the page shows episode 1 |
| `AnimePage.OutOfRangeEpisode` | app.py:113-114 | the answer is the text "Episode n not available.", with n written by `str()`, exactly when n < 1 or n > `totalEpisodes`; that outcome does not depend on the episode list, the servers or the sources |
| `AnimePage.PageShowsListedEpisode` | app.py:113-141 | a page's episode n is within `[1, totalEpisodes]` and within the list; its episode id is `episodes[n-1].episodeId`; the servers are asked for that id and the sources for that id and the first server; the cookie holds `str(n)` |
| `AnimePage.ChooseServer` | app.py:119-123 | no server exactly when `sub` is missing, `null` or empty; otherwise the first entry's `serverName` |
| `AnimePage.NoSubServers` | app.py:113-122 | for an episode within `[1, totalEpisodes]` and the episode list, the answer is the text "No available servers for this episode." exactly when the servers' `sub` list for `episodes[n-1].episodeId` is missing, `null` or empty; that outcome does not depend on the sources |
| `AnimePage.NoSourcesStillRenders` | app.py:119-141 | for such an episode whose first server offers an empty or `null` source list, the page is still rendered, for that episode's id and with no embed URL |
| `AnimePage.ChooseEmbedUrl` | app.py:126-131 | no URL when the source list is missing, `null` or empty; a URL only from the first source's `url` |
| `AnimePage.EmbedUrlOfFirstSource` | app.py:130-131 | on a page the embed URL is `None` exactly when the source list is missing, `null` or empty or its first `url` is `null`; otherwise it is `sources[0].url` |
| `AnimePage.CookieRemembersEpisode` | app.py:112-141 | whenever `int()` reads plain digit texts as Python does, a later request without an `episode` argument, carrying the cookie the page set, renders the same page |
| `Python.ParseDecimalOfIntToStr` | app.py:112-141 | `int(str(n)) == n` for every integer: the text `str(n)` written into the cookie reads back as `n`, which `CookieRemembersEpisode` uses |
| `Python.ParseDecimal` | app.py:112 | a number read from a digit text is written back by `str()` as the same text, unless the text had a leading zero |
| `AniList.Flatten` | app.py:78-88 | building the record raises exactly when `title`, `startDate` or `coverImage` is `null` |
| `AniList.FetchAnimeDetails` | app.py:69-88 | a status other than 200 gives `None`; a record comes only from a present, non-empty `Media`, and is its flattening |
| `AniList.Details` | app.py:91-96 | the page says "Anime not found." exactly when the lookup gives `None`, renders exactly the record the lookup gives, and raises exactly what the lookup raises |
| `AniList.NotFoundCases` | app.py:71-96 | the text "Anime not found." exactly for a status other than 200, or a 200 answer whose `Media` is missing, `null` or `{}` |
| `AniList.FoundTitleRendered` | app.py:91-95 | a non-empty `Media` is rendered as its flattening, or raises `AttributeError` |
| `AniList.MissingKeysGetFallbacks` | app.py:78-88 | each missing key shows its fallback text; the start date uses `Unknown` for a missing year and `00` for a missing month or day |
| `AniList.DatePart` | app.py:84 | a part of the start date is `str()` of AniList's number, `None` for a `null`, and the fallback for a missing key |
| `AniList.PresentKeysKept` | app.py:78-88 | for each of the nine fields, a present key keeps AniList's value and a `null` becomes `None`; the start date is the three parts, as `DatePart` writes them, joined by `-` |
| `AniList.OnlyIdGivesFallbacks` | app.py:78-88 | a `Media` with only an id gives every fallback text and the start date `Unknown-00-00` |
| `AniList.StartDateReadsBack` | app.py:84 | unless a part is a negative number, splitting the start date at `-` gives the year, month and day texts, and each number reads back as itself |

## Left out

- Network I/O: the `requests.get`/`requests.post` calls, their failures and the decoding of their bodies. The decoded answers are inputs, and a body that is not JSON is not modelled.
- JSON values of an unexpected type: a string where a list is expected, or a list entry that is not an object. Every field has the type the APIs document.
- Flask: routing, `render_template` and the templates, `redirect`/`url_for` beyond the target they name, `make_response`, and cookie transport. The cookie's `max_age` is kept only as the constant 2592000.
- The home page (app.py:15-19) and the static pages and favicon (app.py:145-168). They pass data to templates and decide nothing.
- The grammar of Python's `int()` (signs, surrounding whitespace, underscores, Unicode digits). It is the parameter `parseInt`; `ParseDecimal` covers only plain optional-minus-and-digits texts.
- Non-ASCII text in `format_anime_name`: Unicode whitespace and Unicode lower-casing are not modelled, so `FormatAnimeName` requires ASCII input.
- The GraphQL query text (app.py:43-66). It is an opaque constant; the answer is modelled as the `Media` keys it requests.
- The keys of an episode entry other than `episodeId`, and the contents of the anime-info object. They only reach the templates.
