/**
 * Talking to the metadata service: the request URL built for a movie, the
 * normalisation of the service's payload into a MovieRecord, and the mapping
 * of a request's outcome (payload, timeout, connection failure) to the entry
 * stored in `imdbJSON`.
 */
module Omdb {
  import opened Records
  import opened Strings

  const UrlTitle: string := "http://www.omdbapi.com/?t={0}"
  const UrlTitleYear: string := "http://www.omdbapi.com/?t={0}&y={1}"
  /** The literal part that both templates start with. */
  const UrlPrefix: string := "http://www.omdbapi.com/?t="

  /** The service's "not available" sentinel. */
  const NotAvailable: string := "N/A"
  /** The value of the payload's `Response` key when the title was not found. */
  const NotFound: string := "False"

  const ErrTimeout: string := "err_timeout"
  const ErrConnect: string := "err_connect"

  // ---------------------------------------------------------------------------
  // Request URL

  /** How `str.format` renders an optional title: `None` becomes the text "None". */
  function ShowTitle(title: Option<string>): string {
    match title
    case None => "None"
    case Some(t) => t
  }

  /** The title-only template renders as the prefix followed by the title. */
  lemma UrlTitleFormat(t: string)
    ensures Format(UrlTitle, [t]) == UrlPrefix + t
  {
    assert UrlTitle == UrlPrefix + "{0}";
    FormatLiteralPrefix(UrlPrefix, "{0}", [t]);
    assert "{0}" == ['{', DigitChar(0), '}'] + [];
    FormatPlaceholder(0, [], [t]);
  }

  /** The title-and-year template renders as the prefix, the title, `&y=` and the year. */
  lemma UrlTitleYearFormat(t: string, y: string)
    ensures Format(UrlTitleYear, [t, y]) == UrlPrefix + t + "&y=" + y
  {
    assert UrlTitleYear == UrlPrefix + "{0}&y={1}";
    TitleYearFieldsFormat(UrlPrefix, [t, y]);
  }

  lemma TitleYearFieldsFormat(prefix: string, args: seq<string>)
    requires '{' !in prefix && |args| == 2
    ensures Format(prefix + "{0}&y={1}", args) == prefix + args[0] + "&y=" + args[1]
  {
    FormatLiteralPrefix(prefix, "{0}&y={1}", args);
    FieldsFormat(args);
  }

  lemma FieldsFormat(args: seq<string>)
    requires |args| == 2
    ensures Format("{0}&y={1}", args) == args[0] + "&y=" + args[1]
  {
    assert "{0}&y={1}" == ['{', DigitChar(0), '}'] + "&y={1}";
    FormatPlaceholder(0, "&y={1}", args);
    YearFieldFormat(args);
  }

  lemma YearFieldFormat(args: seq<string>)
    requires |args| == 2
    ensures Format("&y={1}", args) == "&y=" + args[1]
  {
    assert "&y={1}" == "&y=" + "{1}";
    FormatLiteralPrefix("&y=", "{1}", args);
    assert "{1}" == ['{', DigitChar(1), '}'] + [];
    FormatPlaceholder(1, [], args);
  }

  /**
   * The URL requested for a movie. A known year selects the title-and-year
   * template whatever the title is (a missing title is rendered "None"); a
   * title without a year selects the title-only template; with neither the
   * URL is empty.
   */
  function GetUrl(movie: MovieJson): (url: string)
    ensures movie.year.Some? ==>
              url == UrlPrefix + ShowTitle(movie.title) + "&y=" + Decimal(movie.year.value)
    ensures movie.year.None? && movie.title.Some? ==> url == UrlPrefix + movie.title.value
    ensures movie.year.None? && movie.title.None? ==> url == ""
  {
    var url := if movie.title.Some? then Format(UrlTitle, [movie.title.value]) else "";
    if movie.year.Some? then
      UrlTitleYearFormat(ShowTitle(movie.title), Decimal(movie.year.value));
      Format(UrlTitleYear, [ShowTitle(movie.title), Decimal(movie.year.value)])
    else
      (if movie.title.Some? then UrlTitleFormat(movie.title.value); url else url)
  }

  // ---------------------------------------------------------------------------
  // Response normalisation

  /** The requested title as it is stored: `None` stays `None`. */
  function RequestedTitle(title: Option<string>): Value {
    match title
    case None => Null
    case Some(t) => Text(t)
  }

  /** The record before any payload field is copied: the requested title and seven empty strings. */
  function Defaults(title: Option<string>): (r: MovieRecord)
    ensures r.movieTitle == RequestedTitle(title)
    ensures r.movieYear == r.movieRuntime == r.movieGenre == r.moviePlot == Text("")
    ensures r.movieMeta == r.movieImdb == r.movieAwards == Text("")
  {
    MovieRecord(RequestedTitle(title), Text(""), Text(""), Text(""), Text(""), Text(""), Text(""), Text(""))
  }

  /**
   * Normalises a payload for the requested `title`. A payload whose
   * `Response` is "False" gives the defaults. Otherwise a non-empty API title
   * replaces the requested one; year, genre, plot and awards are copied
   * escaped, the sentinel "N/A" included (an empty value is the empty
   * default either way); runtime "N/A" becomes the empty string; metascore and
   * rating "N/A" become the number 0. No other field ever becomes a number.
   */
  function ParseResponse(title: Option<string>, resp: Payload): (r: MovieRecord)
    ensures resp.response == NotFound ==> r == Defaults(title)
    ensures resp.response != NotFound ==>
              r.movieTitle == if resp.title != "" then Text(Escape(resp.title)) else RequestedTitle(title)
    ensures var found := resp.response != NotFound;
            && r.movieYear == Text(if found then Escape(resp.year) else "")
            && r.movieGenre == Text(if found then Escape(resp.genre) else "")
            && r.moviePlot == Text(if found then Escape(resp.plot) else "")
            && r.movieAwards == Text(if found then Escape(resp.awards) else "")
            && r.movieRuntime == Text(if found && resp.runtime != NotAvailable then Escape(resp.runtime) else "")
            && r.movieMeta == (if found && resp.metascore == NotAvailable then Number(0)
                               else Text(if found then Escape(resp.metascore) else ""))
            && r.movieImdb == (if found && resp.imdbRating == NotAvailable then Number(0)
                               else Text(if found then Escape(resp.imdbRating) else ""))
  {
    if resp.response == NotFound then Defaults(title)
    else
      MovieRecord(
        movieTitle := if resp.title != "" then Text(Escape(resp.title)) else RequestedTitle(title),
        movieYear := CopyText(resp.year),
        movieRuntime := CopyRuntime(resp.runtime),
        movieGenre := CopyText(resp.genre),
        moviePlot := CopyText(resp.plot),
        movieMeta := CopyMetascore(resp.metascore),
        movieImdb := CopyRating(resp.imdbRating),
        movieAwards := CopyText(resp.awards))
  }

  /** Year, genre, plot and awards: a non-empty value is copied escaped, the sentinel included. */
  function CopyText(v: string): (r: Value)
    ensures r == Text(Escape(v))
  {
    if v != "" then Text(Escape(v)) else Text("")
  }

  /** Runtime: the sentinel becomes the empty string, any other non-empty value is copied escaped. */
  function CopyRuntime(v: string): (r: Value)
    ensures r == Text(if v != NotAvailable then Escape(v) else "")
  {
    if v != "" then (if v == NotAvailable then Text("") else Text(Escape(v))) else Text("")
  }

  /** Metascore: the sentinel, tested first, becomes the number 0; a non-empty value is copied escaped. */
  function CopyMetascore(v: string): (r: Value)
    ensures r == if v == NotAvailable then Number(0) else Text(Escape(v))
  {
    if v == NotAvailable then Number(0) else if v != "" then Text(Escape(v)) else Text("")
  }

  /** Rating: a non-empty value is the number 0 when it is the sentinel and is copied escaped otherwise. */
  function CopyRating(v: string): (r: Value)
    ensures r == if v == NotAvailable then Number(0) else Text(Escape(v))
  {
    if v != "" then (if v == NotAvailable then Number(0) else Text(Escape(v))) else Text("")
  }

  /**
   * The sentinel is treated differently per field: with "N/A" everywhere,
   * runtime is empty, metascore and rating are the number 0, and year, genre,
   * plot and awards keep the text "N/A".
   */
  lemma NotAvailableAsymmetry(title: Option<string>, resp: Payload)
    requires resp.response != NotFound
    requires resp.year == resp.runtime == resp.genre == resp.plot == NotAvailable
    requires resp.metascore == resp.imdbRating == resp.awards == NotAvailable
    ensures var r := ParseResponse(title, resp);
            && r.movieRuntime == Text("")
            && r.movieMeta == Number(0) && r.movieImdb == Number(0)
            && r.movieYear == r.movieGenre == r.moviePlot == r.movieAwards == Text(NotAvailable)
  {
  }

  /**
   * For a found payload, normalisation loses nothing but the sentinel: every
   * copied text field unescapes to the payload's value.
   */
  lemma ParseResponseLossless(title: Option<string>, resp: Payload)
    requires resp.response != NotFound
    ensures var r := ParseResponse(title, resp);
            && (resp.title != "" ==> r.movieTitle.Text? && Unescape(r.movieTitle.s) == resp.title)
            && Unescape(r.movieYear.s) == resp.year
            && Unescape(r.movieGenre.s) == resp.genre
            && Unescape(r.moviePlot.s) == resp.plot
            && Unescape(r.movieAwards.s) == resp.awards
            && (resp.runtime != NotAvailable ==> Unescape(r.movieRuntime.s) == resp.runtime)
            && (resp.metascore != NotAvailable ==> r.movieMeta.Text? && Unescape(r.movieMeta.s) == resp.metascore)
            && (resp.imdbRating != NotAvailable ==> r.movieImdb.Text? && Unescape(r.movieImdb.s) == resp.imdbRating)
  {
    UnescapeEscape(resp.title);
    UnescapeEscape(resp.year);
    UnescapeEscape(resp.genre);
    UnescapeEscape(resp.plot);
    UnescapeEscape(resp.awards);
    UnescapeEscape(resp.runtime);
    UnescapeEscape(resp.metascore);
    UnescapeEscape(resp.imdbRating);
  }

  // ---------------------------------------------------------------------------
  // Outcome of one request

  /**
   * The entry recorded for one request of `title`: the normalised payload,
   * or one of the two fixed error objects, `err_timeout` for a timeout and
   * `err_connect` for a connection failure.
   */
  function Worker(title: Option<string>, outcome: Fetch): (e: ImdbEntry)
    ensures outcome.Ok? <==> e.Parsed?
    ensures outcome.Ok? ==> e.record == ParseResponse(title, outcome.payload)
    ensures outcome.Timeout? <==> e == Failed(ErrTimeout)
    ensures outcome.ConnectError? <==> e == Failed(ErrConnect)
  {
    match outcome
    case Ok(payload) => Parsed(ParseResponse(title, payload))
    case Timeout => Failed(ErrTimeout)
    case ConnectError => Failed(ErrConnect)
  }

  /**
   * Requests the URL of `movie` from `net` and records the outcome under the
   * movie's title. A movie with neither title nor year requests the empty URL.
   */
  function FetchOne(movie: MovieJson, net: string -> Fetch): (e: ImdbEntry)
    ensures e.Parsed? <==> net(GetUrl(movie)).Ok?
    ensures e.Parsed? ==> e.record == ParseResponse(movie.title, net(GetUrl(movie)).payload)
    ensures movie.title.None? && movie.year.None? ==> e == Worker(None, net(""))
  {
    Worker(movie.title, net(GetUrl(movie)))
  }

  /** The entries recorded for `movies` in order: exactly one per movie, whatever its outcome. */
  function FetchAll(movies: seq<MovieJson>, net: string -> Fetch): (entries: seq<ImdbEntry>)
    ensures |entries| == |movies|
    ensures forall i :: 0 <= i < |movies| ==> entries[i] == FetchOne(movies[i], net)
  {
    if movies == [] then []
    else FetchAll(movies[..|movies| - 1], net) + [FetchOne(movies[|movies| - 1], net)]
  }
}
