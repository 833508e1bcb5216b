/**
 * The values that flow through MovieMeta: what the name guesser reports for
 * a file, the {title, year} projection kept per movie, the metadata service's
 * payload, the normalised record built from it, and the per-movie outcome
 * (a record or a transport error).
 */
module Records {

  datatype Option<T> = None | Some(value: T)

  /** A JSON value as stored in a normalised record: `None`, a string or a number. */
  datatype Value = Null | Text(s: string) | Number(n: int)

  /**
   * What the name guesser reports for one directory entry. Besides the title
   * and year it may report further properties (container, type, ...), kept
   * here as `other` and dropped by the projection to MovieJson.
   */
  datatype Guess = Guess(title: Option<string>, year: Option<int>, other: map<string, string>)

  /** One entry of `movieJsonArr`: `{"title": ..., "year": ...}`. */
  datatype MovieJson = MovieJson(title: Option<string>, year: Option<int>)

  /**
   * The metadata service's JSON object, with the nine keys that the parser
   * reads. All nine are present: the parser indexes every one of them.
   */
  datatype Payload = Payload(
    response: string,
    title: string,
    year: string,
    runtime: string,
    genre: string,
    plot: string,
    metascore: string,
    imdbRating: string,
    awards: string)

  /** The normalised record with its eight fixed keys. */
  datatype MovieRecord = MovieRecord(
    movieTitle: Value,
    movieYear: Value,
    movieRuntime: Value,
    movieGenre: Value,
    moviePlot: Value,
    movieMeta: Value,
    movieImdb: Value,
    movieAwards: Value)

  /** What one network request gave: a decoded payload, a timeout or a connection failure. */
  datatype Fetch = Ok(payload: Payload) | Timeout | ConnectError

  /**
   * One element of `imdbJSON`: either a normalised record, or the error
   * object `{"Response": false, "Error": error}`.
   */
  datatype ImdbEntry = Parsed(record: MovieRecord) | Failed(error: string)
}
