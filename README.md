# MovieMeta in Dafny

A model of the core of `moviemeta.py`, a tool that scans a directory of
movie files, guesses a title and year for each entry, asks the OMDb
metadata service about every guessed movie, and collects one normalised
record (or one error record) per movie.

The model has five modules:

- `Records` (`records.dfy`): the values that flow through the program: the
  guesser's result, the `{title, year}` entry kept per movie, the service's
  payload with its nine keys, the normalised record with its eight keys, a
  request's outcome (payload, timeout or connection failure), and the entry
  stored per movie (a record, or the error object
  `{"Response": false, "Error": ...}`). Record fields are a small sum type
  (`None`, a string or a number), because the source stores the number `0`
  and the string `''` in the same keys.
- `Strings` (`strings.dfy`): quote escaping (`replace('"', '\\"')`) with its
  inverse, `split(",")` with `join`, `str.format` for positional fields, and
  the decimal rendering of a year.
- `Omdb` (`omdb.dfy`): the request URL (`getURL`), the payload
  normalisation (`parseIMDBResponse`), the mapping of a request's outcome to
  the stored entry (`worker`), and the entries of a whole sequential run.
- `Scan` (`scan.dfy`): the directory tree (`File`, `Dir` with its listing in
  listing order, `Unreadable` for a directory whose listing fails) and the
  walk rule of `_walk` as functions.
- `Moviemeta` (`moviemeta.dfy`): the class `MovieMeta` with the fields the
  source appends to (`subdirs`, `movieArr`, `movieJsonArr`, `imdbJSON`) and
  the `processed` flag, and its methods, each proved against the functions
  above.

The name guesser (`guessit`) is the parameter `guess`, a function from an
entry's bare name to its guess. The network is the parameter `net`, a
function from a URL to the outcome of requesting it.

Two rules of the code are easy to misread:

- For a found payload (one whose `Response` is not "False") the service's
  non-empty `Title` replaces the requested title (moviemeta.py:237-242); a
  payload that was not found keeps the requested title
  (moviemeta.py:237-239). `Omdb.ParseResponse` states both.
- The configured names are the directories to descend into, and only
  directories among the listed entries are descended into; every unlisted
  entry, directory or not, is guessed by its bare name and not descended into
  (moviemeta.py:136-142). `Scan.Walk` and `MovieMeta.WalkTree` follow this
  rule, so a directory named `Extras` is walked exactly when `Extras` is
  listed.

## Model

| member | source | states |
|---|---|---|
| `Strings.Escape` | moviemeta.py:242-258 | every `"` becomes `\"`; the result is longer by the number of quotes, and every quote in it is preceded by a backslash; text without quotes is unchanged |
| `Strings.UnescapeEscape` | moviemeta.py:242-258 | escaping loses nothing: reading `\"` back as `"` gives the original text |
| `Strings.Split` | moviemeta.py:103-104 | splitting on `,` gives one piece more than there are separators (`""` gives `[""]`) and no piece holds the separator |
| `Strings.JoinSplit` | moviemeta.py:103-104 | joining the pieces with `,` rebuilds the configuration line |
| `Strings.SplitJoin` | moviemeta.py:103-104 | splitting a `,`-joined list of separator-free names gives the names back |
| `Strings.DecimalRoundTrip` | moviemeta.py:200-201 | the rendering of the year placed in the URL reads back as the year |
| `Omdb.UrlTitleFormat` | moviemeta.py:79 | the title template formats as `http://www.omdbapi.com/?t=` followed by the title |
| `Omdb.UrlTitleYearFormat` | moviemeta.py:80 | the title-and-year template formats as the prefix, the title, `&y=` and the year |
| `Omdb.GetUrl` | moviemeta.py:195-202 | a known year selects the title-and-year URL whatever the title (a missing title is written `None`); a title without year selects the title URL; with neither the URL is empty |
| `Omdb.Defaults` | moviemeta.py:227-235 | the starting record holds the requested title and the empty string in the seven other keys |
| `Omdb.ParseResponse` | moviemeta.py:226-260 | `Response` "False" gives the requested title and seven empty strings; otherwise a non-empty API title replaces the requested one, year/genre/plot/awards are the escaped payload values ("N/A" passes through), runtime "N/A" is empty, metascore and rating "N/A" are the number 0, and an empty payload value leaves the empty default |
| `Omdb.CopyText` | moviemeta.py:243-244 | a year (likewise genre, plot, awards) is stored escaped, empty when the payload's is empty |
| `Omdb.CopyRuntime` | moviemeta.py:245-246 | a runtime "N/A" is stored as the empty string, any other as the escaped value |
| `Omdb.CopyMetascore` | moviemeta.py:251-254 | a metascore "N/A" is the number 0, any other the escaped value |
| `Omdb.CopyRating` | moviemeta.py:255-256 | a rating "N/A" is the number 0, any other the escaped value |
| `Omdb.NotAvailableAsymmetry` | moviemeta.py:243-258 | with "N/A" in every field: runtime is empty, metascore and rating are 0, year/genre/plot/awards stay "N/A" |
| `Omdb.ParseResponseLossless` | moviemeta.py:241-258 | for a found payload every copied text field unescapes to the payload's value, except where the sentinel was replaced |
| `Omdb.Worker` | moviemeta.py:174-193 | a payload gives its normalised record; a timeout gives exactly the `err_timeout` error entry and a connection failure exactly the `err_connect` one, and only they do |
| `Omdb.FetchOne` | moviemeta.py:215-216 | a movie's entry is a parsed record exactly when requesting its URL gave a payload, and then it is that payload normalised for the movie's title; a movie with neither title nor year requests the empty URL |
| `Omdb.FetchAll` | moviemeta.py:214-217 | one entry per movie, in order, each the outcome of requesting that movie's URL |
| `Scan.Walk` | moviemeta.py:129-142 | the guesses `_walk` appends, in order; nothing when the entry cannot be listed (a file or an unreadable directory), and fewer guesses than entries in its tree |
| `Scan.WalkEntries` | moviemeta.py:136-142 | the guesses appended for a listing, in order, at most one per entry of its trees |
| `Scan.Visit` | moviemeta.py:137-142 | an unlisted entry contributes exactly its guess by bare name; a listed file contributes nothing; no entry contributes more guesses than its tree has entries |
| `Scan.VisitBetween` | moviemeta.py:136-142 | the walk of a listing is the walk before an entry, that entry's contribution, then the walk after it |
| `Scan.WalkEntriesConcat` | moviemeta.py:136-142 | walking two listings in turn appends their guesses in turn |
| `Scan.EntryContribution` | moviemeta.py:129-142 | within a listing an unlisted entry adds exactly its guess, a listed directory adds the walk of its listing, and a listed file or listed unreadable directory adds nothing while the walk goes on |
| `Scan.FlatWhenNothingListed` | moviemeta.py:136-142 | when no name is listed the walk is the guess of every name, one per entry, in listing order |
| `Moviemeta.Projected` | moviemeta.py:113-118 | one `{title, year}` entry per guess, in order, with the guess's title and year |
| `Moviemeta.MovieMeta.constructor` | moviemeta.py:72-99 | a new object has nothing scanned or fetched and its subdirectory list is the split configuration line |
| `Moviemeta.MovieMeta.Subdir` | moviemeta.py:103-104 | the subdirectory list becomes the split line, non-empty and joining back to the line |
| `Moviemeta.MovieMeta.WalkTree` | moviemeta.py:129-142 | `movieArr` grows by exactly the walk of the tree; an entry that cannot be listed adds nothing |
| `Moviemeta.MovieMeta.MakeJson` | moviemeta.py:113-126 | `movieJsonArr` grows by the projection of every guess, in order, and the scan is marked done |
| `Moviemeta.MovieMeta.Process` | moviemeta.py:144-150 | the first call walks the root and keeps the projection of its guesses; later calls change nothing |
| `Moviemeta.MovieMeta.Get` | moviemeta.py:152-154 | returns the projection of the first walk; every later call returns the same list |
| `Moviemeta.MovieMeta.Result` | moviemeta.py:171-172 | appends exactly the given entry to `imdbJSON` |
| `Moviemeta.MovieMeta.GetImdb` | moviemeta.py:204-224 | with no movie, returns nothing and leaves `imdbJSON` unchanged; otherwise `imdbJSON` grows by one entry per movie, in order, and is returned |
| `Moviemeta.MovieMeta.AppendFetched` | moviemeta.py:214-217 | the fetch loop appends, per movie in order, the outcome of requesting its URL |
| `Moviemeta.RepeatedGet` | moviemeta.py:144-154 | two `get` calls return the same list, even given another tree or guesser |
| `Moviemeta.RunSequential` | moviemeta.py:204-224 | a sequential run on a fresh object records exactly one entry per guessed entry (file or unlisted directory), in walk order |

## Left out

- `Threader`, the queue filled by `prepare` and the call to `queue.join`, and
  the daemon worker threads: their point is concurrency, a bounded blocking
  queue and a join barrier. `result` is modelled as the append it performs.
- The network and JSON decoding: the outcome of a request is the parameter
  `net`. Exceptions the source does not catch (a body that is not JSON, a
  missing payload key, other request errors) are not modelled; a payload
  always has its nine keys, all strings.
- `net` is a function of the URL, so two requests of the same URL in one run
  have the same outcome; a real service need not behave so.
- Moviemeta.MovieMeta.GetImdb: a movie with neither title nor year gets the
  empty URL from `Omdb.GetUrl` (moviemeta.py:196-202), and requesting `""`
  raises an error that is neither a timeout nor a connection failure, so
  `worker` does not catch it and `getIMDB` stops at that movie
  (moviemeta.py:178, 184-193). The model records `Worker(title, net(""))`
  for it instead, so its promise of one entry per movie holds only for
  scans in which every movie has a title or a year.
- Moviemeta.RunSequential: the same empty-URL case; its one entry per
  guessed entry holds only when every guess has a title or a year.
- Omdb.FetchAll: the same empty-URL case; the source aborts where the
  model records an entry.
- The tree has no links: a listed symbolic link to an ancestor directory,
  which `_walk` recurses into without bound (moviemeta.py:139-140), cannot
  be expressed; every modelled walk ends.
- The file system: `os.listdir` and `os.path.isdir` are replaced by the tree,
  whose listings give the children directly (no `os.path.join`), and reading
  `subdir.txt`: the constructor takes its first line, or `""` when there is
  no file. `readline` keeps the line's newline, so the last configured name
  then ends in a newline; the model keeps whatever line it is given.
- `_process` walks the module-level `current_dir` of the command-line entry
  point rather than `self.currentDir`; the model takes the walked root as a
  parameter, and `currentDir` is not a field.
- `guessit`: the parameter `guess`, applied to an entry's bare name.
- JSON text: the `movieJSON` text that `makeJSON` builds and returns,
  `get(json=True)`, `getResult`, `writeFile` and the text that
  `getIMDB(jsonify=True)` returns; `GetImdb` returns the list.
- Logging (`debug`, the logger calls), the time measurements in `getIMDB`,
  argument parsing and the `__main__` block.
- `.encode('utf-8')` is the identity on strings; no Unicode or URL encoding.
- `Strings.Format` covers the positional fields `{0}` to `{9}` only; a field
  naming a missing argument is copied instead of raising an error (no
  template of the program has one).
