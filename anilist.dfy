/** `fetch_anime_details_from_anilist` and the `/details/<name>` handler
    (app.py:41-96): one GraphQL lookup of the best-matching title on AniList,
    flattened into the nine fields the details template shows, each missing
    key replaced by a fixed text. */
module AniList {
  import opened Python

  /** `Media.title`. */
  datatype Title = Title(romaji: Field<string>, english: Field<string>, native: Field<string>)

  /** `Media.startDate`. */
  datatype FuzzyDate = FuzzyDate(year: Field<int>, month: Field<int>, day: Field<int>)

  /** `Media.coverImage`. */
  datatype CoverImage = CoverImage(large: Field<string>)

  /** `Media`: the keys the query asks for. */
  datatype Media = Media(
    id: Field<int>,
    title: Field<Title>,
    description: Field<string>,
    episodes: Field<int>,
    startDate: Field<FuzzyDate>,
    status: Field<string>,
    averageScore: Field<int>,
    coverImage: Field<CoverImage>)

  datatype AniListData = AniListData(media: Field<Media>)

  /** The HTTP status of the answer and its decoded body `{"data": {"Media": ...}}`. */
  datatype AniListResponse = AniListResponse(statusCode: int, data: Field<AniListData>)

  /** The empty object `{}`. */
  const EMPTY_MEDIA := Media(Absent, Absent, Absent, Absent, Absent, Absent, Absent, Absent)

  /** A Python value placed in the flat record. */
  datatype PyValue = PyStr(s: string) | PyInt(i: int) | PyNone

  /** The flat record handed to the details template. */
  datatype AnimeDetails = AnimeDetails(
    titleRomaji: PyValue,
    titleEnglish: PyValue,
    titleNative: PyValue,
    description: PyValue,
    episodes: PyValue,
    startDate: string,
    status: PyValue,
    averageScore: PyValue,
    coverImage: PyValue)

  const NO_TITLE := "No title available."
  const NO_DESCRIPTION := "No description available."
  const NO_EPISODES := "Not specified."
  const NO_STATUS := "No status available."
  const NO_SCORE := "No score available."
  const NO_YEAR := "Unknown"
  const NO_MONTH_OR_DAY := "00"
  const ANIME_NOT_FOUND := "Anime not found."

  /** `obj.get(key, fallback)` for a text key. */
  function TextOr(f: Field<string>, fallback: string): PyValue
  {
    match Get(f, fallback)
    case None => PyNone
    case Some(s) => PyStr(s)
  }

  /** `obj.get(key, fallback)` for a number key with a text fallback. */
  function NumberOr(f: Field<int>, fallback: string): PyValue
  {
    match f
    case Absent => PyStr(fallback)
    case Null => PyNone
    case Present(i) => PyInt(i)
  }

  /** How an f-string writes a value. */
  function Format(v: PyValue): string
  {
    match v
    case PyStr(s) => s
    case PyInt(i) => IntToStr(i)
    case PyNone => "None"
  }

  /** How one part of the start date is written: `str()` of AniList's
      number, `None` for a `null`, the fallback for a missing key. */
  function DatePart(f: Field<int>, fallback: string): (s: string)
    ensures f.Present? ==> s == IntToStr(f.value)
    ensures f == Null ==> s == "None"
    ensures f == Absent ==> s == fallback
  {
    Format(NumberOr(f, fallback))
  }

  /** The `start_date` text: year, month and day joined by `-`, with
      `Unknown` for a missing year and `00` for a missing month or day. */
  function StartDate(d: FuzzyDate): string
  {
    DatePart(d.year, NO_YEAR) + "-" + DatePart(d.month, NO_MONTH_OR_DAY) + "-" + DatePart(d.day, NO_MONTH_OR_DAY)
  }

  /** The flat record of a non-empty `Media` (app.py:78-88). A `null` title,
      start date or cover image raises `AttributeError`: `.get` is called on
      `None`. Every other key that is missing gets its fallback text. */
  function Flatten(m: Media): (r: Result<AnimeDetails>)
    ensures r.Raise? <==> m.title == Null || m.startDate == Null || m.coverImage == Null
  {
    match (Get(m.title, Title(Absent, Absent, Absent)),
           Get(m.startDate, FuzzyDate(Absent, Absent, Absent)),
           Get(m.coverImage, CoverImage(Absent)))
    case (Some(t), Some(d), Some(c)) =>
      Ok(AnimeDetails(
        TextOr(t.romaji, NO_TITLE),
        TextOr(t.english, NO_TITLE),
        TextOr(t.native, NO_TITLE),
        TextOr(m.description, NO_DESCRIPTION),
        NumberOr(m.episodes, NO_EPISODES),
        StartDate(d),
        TextOr(m.status, NO_STATUS),
        NumberOr(m.averageScore, NO_SCORE),
        TextOr(c.large, "")))
    case _ => Raise(AttributeError)
  }

  /** `fetch_anime_details_from_anilist(name)`, where `anilist` is the
      decoded answer of the GraphQL endpoint to a search for a name: `None`
      for a status other than 200 and for a missing, `null` or empty
      `Media`, the flat record otherwise. */
  function FetchAnimeDetails(anilist: string -> AniListResponse, name: string): (r: Result<Option<AnimeDetails>>)
    ensures anilist(name).statusCode != 200 ==> r == Ok(None)
    ensures r.Ok? && r.value.Some? ==>
      && anilist(name).data.Present? && anilist(name).data.value.media.Present?
      && anilist(name).data.value.media.value != EMPTY_MEDIA
      && Flatten(anilist(name).data.value.media.value) == Ok(r.value.value)
  {
    var response := anilist(name);
    if response.statusCode != 200 then Ok(None)
    else
      match Get(response.data, AniListData(Absent))
      case None => Raise(AttributeError)
      case Some(data) =>
        match Get(data.media, EMPTY_MEDIA)
        case None => Ok(None)
        case Some(media) =>
          if media == EMPTY_MEDIA then Ok(None)
          else
            match Flatten(media)
            case Raise(e) => Raise(e)
            case Ok(details) => Ok(Some(details))
  }

  datatype DetailsOutcome =
    | RenderDetails(anime: AnimeDetails)  // render_template('details.html', anime=...)
    | AnimeNotFound                       // the plain text "Anime not found."
    | Raised(exc: PyException)

  /** `details(name)`: a flat record always has nine keys, so it is never
      falsy and is rendered; `None` gives the "not found" text. */
  function Details(anilist: string -> AniListResponse, name: string): (r: DetailsOutcome)
    ensures r == AnimeNotFound <==> FetchAnimeDetails(anilist, name) == Ok(None)
    ensures r.RenderDetails? <==> FetchAnimeDetails(anilist, name).Ok? && FetchAnimeDetails(anilist, name).value.Some?
    ensures r.RenderDetails? ==> FetchAnimeDetails(anilist, name) == Ok(Some(r.anime))
    ensures r.Raised? <==> FetchAnimeDetails(anilist, name).Raise?
    ensures r.Raised? ==> FetchAnimeDetails(anilist, name) == Raise(r.exc)
  {
    match FetchAnimeDetails(anilist, name)
    case Raise(e) => Raised(e)
    case Ok(None) => AnimeNotFound
    case Ok(Some(details)) => RenderDetails(details)
  }

  /** The text of a plain-text outcome. */
  function Text(r: DetailsOutcome): Option<string>
  {
    if r == AnimeNotFound then Some(ANIME_NOT_FOUND) else None
  }

  /** "Anime not found." exactly for a status other than 200, or a 200
      answer whose `Media` is missing, `null` or empty. */
  lemma NotFoundCases(anilist: string -> AniListResponse, name: string)
    ensures var response := anilist(name);
      Details(anilist, name) == AnimeNotFound <==>
        || response.statusCode != 200
        || (response.data != Null &&
            var media := Get(response.data, AniListData(Absent)).value.media;
            media == Absent || media == Null || media == Present(EMPTY_MEDIA))
    ensures var r := Details(anilist, name);
      r == AnimeNotFound <==> Text(r) == Some("Anime not found.")
  {
  }

  /** A found title is rendered from its own `Media`: when the answer has a
      non-empty `Media` whose title, start date and cover image are not
      `null`, the page shows `Flatten` of it. */
  lemma FoundTitleRendered(anilist: string -> AniListResponse, name: string)
    requires var response := anilist(name);
      && response.statusCode == 200
      && response.data.Present? && response.data.value.media.Present?
      && response.data.value.media.value != EMPTY_MEDIA
    ensures var media := anilist(name).data.value.media.value;
      Flatten(media).Ok? ==> Details(anilist, name) == RenderDetails(Flatten(media).value)
    ensures var media := anilist(name).data.value.media.value;
      Flatten(media).Raise? ==> Details(anilist, name) == Raised(AttributeError)
  {
  }

  /** Every key missing from a found `Media` shows its fallback text; a
      missing start date is `Unknown-00-00`, each missing part of it
      `Unknown` or `00`. */
  lemma MissingKeysGetFallbacks(m: Media)
    requires Flatten(m).Ok?
    ensures var r := Flatten(m).value;
      var t := m.title;
      var d := m.startDate;
      && (t == Absent || (t.Present? && t.value.romaji == Absent) ==> r.titleRomaji == PyStr(NO_TITLE))
      && (t == Absent || (t.Present? && t.value.english == Absent) ==> r.titleEnglish == PyStr(NO_TITLE))
      && (t == Absent || (t.Present? && t.value.native == Absent) ==> r.titleNative == PyStr(NO_TITLE))
      && (m.description == Absent ==> r.description == PyStr(NO_DESCRIPTION))
      && (m.episodes == Absent ==> r.episodes == PyStr(NO_EPISODES))
      && (d == Absent ==> r.startDate == "Unknown-00-00")
      && (d.Present? ==>
            (r.startDate ==
               (if d.value.year == Absent then NO_YEAR else DatePart(d.value.year, "")) + "-" +
               (if d.value.month == Absent then NO_MONTH_OR_DAY else DatePart(d.value.month, "")) + "-" +
               (if d.value.day == Absent then NO_MONTH_OR_DAY else DatePart(d.value.day, ""))))
      && (m.status == Absent ==> r.status == PyStr(NO_STATUS))
      && (m.averageScore == Absent ==> r.averageScore == PyStr(NO_SCORE))
      && (m.coverImage == Absent || (m.coverImage.Present? && m.coverImage.value.large == Absent) ==>
            r.coverImage == PyStr(""))
  {
    if m.startDate == Absent {
      assert StartDate(FuzzyDate(Absent, Absent, Absent)) == "Unknown" + "-" + "00" + "-" + "00" == "Unknown-00-00";
    }
  }

  /** Every key a found `Media` has keeps AniList's value, and a `null`
      becomes Python's `None`, which an f-string writes as `None`. */
  lemma PresentKeysKept(m: Media)
    requires Flatten(m).Ok?
    ensures var r := Flatten(m).value;
      && (m.title.Present? ==>
            var t := m.title.value;
            && (t.romaji.Present? ==> r.titleRomaji == PyStr(t.romaji.value))
            && (t.romaji == Null ==> r.titleRomaji == PyNone)
            && (t.english.Present? ==> r.titleEnglish == PyStr(t.english.value))
            && (t.english == Null ==> r.titleEnglish == PyNone)
            && (t.native.Present? ==> r.titleNative == PyStr(t.native.value))
            && (t.native == Null ==> r.titleNative == PyNone))
      && (m.description.Present? ==> r.description == PyStr(m.description.value))
      && (m.description == Null ==> r.description == PyNone)
      && (m.episodes.Present? ==> r.episodes == PyInt(m.episodes.value))
      && (m.episodes == Null ==> r.episodes == PyNone)
      && (m.status.Present? ==> r.status == PyStr(m.status.value))
      && (m.status == Null ==> r.status == PyNone)
      && (m.averageScore.Present? ==> r.averageScore == PyInt(m.averageScore.value))
      && (m.averageScore == Null ==> r.averageScore == PyNone)
      && (m.startDate.Present? ==>
            var d := m.startDate.value;
            r.startDate == DatePart(d.year, NO_YEAR) + "-" + DatePart(d.month, NO_MONTH_OR_DAY) + "-" +
                           DatePart(d.day, NO_MONTH_OR_DAY))
      && (m.startDate.Present? && m.startDate.value.year == Null ==>
            r.startDate[..5] == "None-")
      && (m.coverImage.Present? ==>
            var c := m.coverImage.value;
            && (c.large.Present? ==> r.coverImage == PyStr(c.large.value))
            && (c.large == Null ==> r.coverImage == PyNone))
  {
  }

  /** A `Media` that has only its id: every field shows its fallback text,
      the start date is `Unknown-00-00`, the cover image is empty. */
  lemma OnlyIdGivesFallbacks(id: int)
    ensures Flatten(EMPTY_MEDIA.(id := Present(id))) == Ok(AnimeDetails(
      PyStr(NO_TITLE), PyStr(NO_TITLE), PyStr(NO_TITLE), PyStr(NO_DESCRIPTION),
      PyStr(NO_EPISODES), "Unknown-00-00", PyStr(NO_STATUS), PyStr(NO_SCORE), PyStr("")))
  {
    assert StartDate(FuzzyDate(Absent, Absent, Absent)) == "Unknown" + "-" + "00" + "-" + "00" == "Unknown-00-00";
  }

  /** The position of the first `sep` in `s`, or `|s|` when there is none. */
  function IndexOf(s: string, sep: char): (k: nat)
    ensures k <= |s|
    ensures forall i :: 0 <= i < k ==> s[i] != sep
    ensures k < |s| ==> s[k] == sep
  {
    if s == [] || s[0] == sep then 0 else 1 + IndexOf(s[1..], sep)
  }

  /** `s.split(sep)`: the pieces between the separators. */
  function SplitOn(s: string, sep: char): (pieces: seq<string>)
    ensures |pieces| > 0
    decreases |s|
  {
    var k := IndexOf(s, sep);
    if k == |s| then [s] else [s[..k]] + SplitOn(s[k + 1..], sep)
  }

  lemma {:induction false} SplitOnWithout(s: string, sep: char)
    requires forall i :: 0 <= i < |s| ==> s[i] != sep
    ensures SplitOn(s, sep) == [s]
  {
    assert IndexOf(s, sep) == |s|;
  }

  lemma {:induction false} SplitOnAfter(a: string, sep: char, b: string)
    requires forall i :: 0 <= i < |a| ==> a[i] != sep
    ensures SplitOn(a + [sep] + b, sep) == [a] + SplitOn(b, sep)
  {
    var s := a + [sep] + b;
    var k := IndexOf(s, sep);
    assert s[|a|] == sep;
    assert forall i :: 0 <= i < |a| ==> s[i] == a[i];
    assert k == |a|;
    assert s[..k] == a && s[k + 1..] == b;
  }

  /** Three pieces without `-`, joined by `-`, split back into the three. */
  lemma SplitOnThree(a: string, b: string, c: string)
    requires forall i :: 0 <= i < |a| ==> a[i] != '-'
    requires forall i :: 0 <= i < |b| ==> b[i] != '-'
    requires forall i :: 0 <= i < |c| ==> c[i] != '-'
    ensures SplitOn(a + "-" + b + "-" + c, '-') == [a, b, c]
  {
    var rest := b + ['-'] + c;
    assert a + "-" + b + "-" + c == a + ['-'] + rest;
    SplitOnWithout(c, '-');
    SplitOnAfter(b, '-', c);
    assert SplitOn(rest, '-') == [b, c];
    SplitOnAfter(a, '-', rest);
  }

  /** The text of a number without a minus sign. */
  predicate Unsigned(v: PyValue)
  {
    v.PyInt? ==> v.i >= 0
  }

  /** The start date can be read back: split at `-`, it gives the year,
      month and day texts in order, and a year, month or day that AniList
      gave as a number reads back as that number. */
  lemma StartDateReadsBack(d: FuzzyDate)
    requires Unsigned(NumberOr(d.year, NO_YEAR))
    requires Unsigned(NumberOr(d.month, NO_MONTH_OR_DAY))
    requires Unsigned(NumberOr(d.day, NO_MONTH_OR_DAY))
    ensures var parts := SplitOn(StartDate(d), '-');
      && parts == [DatePart(d.year, NO_YEAR), DatePart(d.month, NO_MONTH_OR_DAY),
                   DatePart(d.day, NO_MONTH_OR_DAY)]
      && (d.year.Present? ==> ParseDecimal(parts[0]) == Some(d.year.value))
      && (d.month.Present? ==> ParseDecimal(parts[1]) == Some(d.month.value))
      && (d.day.Present? ==> ParseDecimal(parts[2]) == Some(d.day.value))
  {
    var y := DatePart(d.year, NO_YEAR);
    var m := DatePart(d.month, NO_MONTH_OR_DAY);
    var dd := DatePart(d.day, NO_MONTH_OR_DAY);
    NoDashInUnsigned(NumberOr(d.year, NO_YEAR));
    NoDashInUnsigned(NumberOr(d.month, NO_MONTH_OR_DAY));
    NoDashInUnsigned(NumberOr(d.day, NO_MONTH_OR_DAY));
    SplitOnThree(y, m, dd);
    if d.year.Present? { ParseDecimalOfIntToStr(d.year.value); }
    if d.month.Present? { ParseDecimalOfIntToStr(d.month.value); }
    if d.day.Present? { ParseDecimalOfIntToStr(d.day.value); }
  }

  /** The text of a date component other than a negative number has no `-`. */
  lemma NoDashInUnsigned(v: PyValue)
    requires Unsigned(v)
    requires v.PyStr? ==> v.s in {NO_YEAR, NO_MONTH_OR_DAY}
    ensures forall i :: 0 <= i < |Format(v)| ==> Format(v)[i] != '-'
  {
    if v.PyInt? {
      assert Format(v) == NatToStr(v.i);
    }
  }
}
