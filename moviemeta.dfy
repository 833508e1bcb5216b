/**
 * The MovieMeta object: it scans a directory tree once, keeps one
 * `{title, year}` entry per guessed movie, and fetches and normalises the
 * metadata of each movie in order, appending one entry per movie to
 * `imdbJSON`.
 *
 * The file system is the in-memory tree of module Scan, the name guesser is
 * the parameter `guess`, and the network is the parameter `net`, which gives
 * the outcome of requesting a URL.
 */
module Moviemeta {
  import opened Records
  import opened Strings
  import opened Omdb
  import opened Scan

  /** The separator between names in the subdirectory configuration line. */
  const SubdirSep: char := ','

  /** The entry `makeJSON` keeps for a guess: its title and year. */
  function Project(g: Guess): MovieJson {
    MovieJson(g.title, g.year)
  }

  /** The entries kept for a sequence of guesses: one per guess, in order. */
  function Projected(guesses: seq<Guess>): (movies: seq<MovieJson>)
    ensures |movies| == |guesses|
    ensures forall i :: 0 <= i < |guesses| ==>
              movies[i].title == guesses[i].title && movies[i].year == guesses[i].year
  {
    if guesses == [] then []
    else Projected(guesses[..|guesses| - 1]) + [Project(guesses[|guesses| - 1])]
  }

  class MovieMeta {
    /** The names of the subdirectories to descend into. */
    var subdirs: seq<string>
    /** The guesses collected by the walk. */
    var movieArr: seq<Guess>
    /** Their `{title, year}` projections. */
    var movieJsonArr: seq<MovieJson>
    /** One entry per fetched movie. */
    var imdbJSON: seq<ImdbEntry>
    /** Whether the tree has been scanned. */
    var processed: bool

    /**
     * What the entry points keep: before the scan nothing is collected;
     * after it, `movieJsonArr` holds the projection of every guess.
     */
    ghost predicate Valid()
      reads this
    {
      && (!processed ==> movieArr == [] && movieJsonArr == [])
      && (processed ==> movieJsonArr == Projected(movieArr))
    }

    /**
     * A fresh object. `subdirLine` is the first line of the configuration
     * file, or the empty string when there is none.
     */
    constructor (subdirLine: string)
      ensures Valid() && !processed
      ensures subdirs == Split(subdirLine, SubdirSep)
      ensures movieArr == [] && movieJsonArr == [] && imdbJSON == []
    {
      subdirs := Split(subdirLine, SubdirSep);
      movieArr := [];
      movieJsonArr := [];
      imdbJSON := [];
      processed := false;
    }

    /** Sets the subdirectory list from a comma-separated line. */
    method Subdir(line: string)
      modifies this`subdirs
      ensures subdirs == Split(line, SubdirSep)
      ensures |subdirs| >= 1 && Join(subdirs, SubdirSep) == line
    {
      subdirs := Split(line, SubdirSep);
      JoinSplit(line, SubdirSep);
    }

    /**
     * Walks `top`: appends to `movieArr` the guess of every unlisted entry and
     * descends into every listed directory; an entry that cannot be listed
     * adds nothing.
     */
    method WalkTree(top: Entry, guess: string -> Guess)
      modifies this`movieArr
      ensures movieArr == old(movieArr) + Walk(top, subdirs, guess)
      decreases top
    {
      if !top.Dir? {
        return;
      }
      var names := top.children;
      var i := 0;
      while i < |names|
        invariant 0 <= i <= |names|
        invariant movieArr == old(movieArr) + WalkEntries(names[..i], subdirs, guess)
      {
        var entry := names[i];
        ghost var before := movieArr;
        if entry.name in subdirs {
          if IsDir(entry) {
            WalkTree(entry, guess);
          }
        } else {
          movieArr := movieArr + [guess(entry.name)];
        }
        assert movieArr == before + Visit(entry, subdirs, guess);
        WalkEntriesConcat(names[..i], [entry], subdirs, guess);
        assert names[..i + 1] == names[..i] + [entry];
        i := i + 1;
      }
      assert names[..|names|] == names;
    }

    /** Appends the projection of every guess to `movieJsonArr` and marks the scan done. */
    method MakeJson()
      modifies this`movieJsonArr, this`processed
      ensures movieJsonArr == old(movieJsonArr) + Projected(movieArr)
      ensures processed
    {
      var i := 0;
      while i < |movieArr|
        invariant 0 <= i <= |movieArr|
        invariant movieJsonArr == old(movieJsonArr) + Projected(movieArr[..i])
      {
        movieJsonArr := movieJsonArr + [Project(movieArr[i])];
        assert movieArr[..i + 1][..i] == movieArr[..i];
        i := i + 1;
      }
      assert movieArr[..|movieArr|] == movieArr;
      processed := true;
    }

    /** Scans `root` unless a scan has already been done. */
    method Process(root: Entry, guess: string -> Guess)
      requires Valid()
      modifies this`movieArr, this`movieJsonArr, this`processed
      ensures Valid() && processed
      ensures old(processed) ==> movieArr == old(movieArr) && movieJsonArr == old(movieJsonArr)
      ensures !old(processed) ==> movieArr == Walk(root, subdirs, guess)
    {
      if !processed {
        WalkTree(root, guess);
        MakeJson();
      }
    }

    /**
     * The `{title, year}` entries of the scan. Only the first call scans;
     * every later call returns the same entries, whatever its arguments.
     */
    method Get(root: Entry, guess: string -> Guess) returns (movies: seq<MovieJson>)
      requires Valid()
      modifies this`movieArr, this`movieJsonArr, this`processed
      ensures Valid() && processed && movies == movieJsonArr
      ensures old(processed) ==> movies == old(movieJsonArr) && movieArr == old(movieArr)
      ensures !old(processed) ==> movies == Projected(Walk(root, subdirs, guess))
    {
      Process(root, guess);
      movies := movieJsonArr;
    }

    /** Records one entry. */
    method Result(response: ImdbEntry)
      modifies this`imdbJSON
      ensures imdbJSON == old(imdbJSON) + [response]
    {
      imdbJSON := imdbJSON + [response];
    }

    /**
     * Scans if needed, then requests each movie's URL in order and appends
     * the recorded outcome to `imdbJSON`: exactly one entry per movie. With
     * no movie nothing is requested, `imdbJSON` is unchanged and the result
     * is `None`; otherwise the result is the whole of `imdbJSON`.
     */
    method GetImdb(root: Entry, guess: string -> Guess, net: string -> Fetch) returns (fetched: Option<seq<ImdbEntry>>)
      requires Valid()
      modifies this`movieArr, this`movieJsonArr, this`processed, this`imdbJSON
      ensures Valid() && processed
      ensures old(processed) ==> movieArr == old(movieArr) && movieJsonArr == old(movieJsonArr)
      ensures !old(processed) ==> movieArr == Walk(root, subdirs, guess)
      ensures movieJsonArr == [] ==> fetched == None && imdbJSON == old(imdbJSON)
      ensures movieJsonArr != [] ==>
                imdbJSON == old(imdbJSON) + FetchAll(movieJsonArr, net) && fetched == Some(imdbJSON)
    {
      Process(root, guess);
      if movieJsonArr == [] {
        return None;
      }
      AppendFetched(movieJsonArr, net);
      fetched := Some(imdbJSON);
    }

    /** The loop of GetImdb: for each movie in order, build its URL, request it and append the outcome. */
    method AppendFetched(movies: seq<MovieJson>, net: string -> Fetch)
      modifies this`imdbJSON
      ensures imdbJSON == old(imdbJSON) + FetchAll(movies, net)
    {
      var i := 0;
      while i < |movies|
        invariant 0 <= i <= |movies|
        invariant imdbJSON == old(imdbJSON) + FetchAll(movies[..i], net)
      {
        var movie := movies[i];
        var url := GetUrl(movie);
        var entry := Worker(movie.title, net(url));
        imdbJSON := imdbJSON + [entry];
        assert movies[..i + 1][..i] == movies[..i];
        i := i + 1;
      }
      assert movies[..|movies|] == movies;
    }
  }

  /**
   * The scan is memoised: a second `Get` returns what the first returned,
   * even for another tree or another guesser.
   */
  method RepeatedGet(m: MovieMeta, root: Entry, guess: string -> Guess, root': Entry, guess': string -> Guess)
    returns (first: seq<MovieJson>, second: seq<MovieJson>)
    requires m.Valid()
    modifies m
    ensures first == second
  {
    first := m.Get(root, guess);
    second := m.Get(root', guess');
  }

  /**
   * A sequential run on a fresh object: one entry per entry the walk
   * guesses (file or unlisted directory), in walk order, each the outcome of
   * requesting that movie's URL.
   */
  method RunSequential(subdirLine: string, root: Entry, guess: string -> Guess, net: string -> Fetch)
    returns (entries: seq<ImdbEntry>)
    ensures var movies := Walk(root, Split(subdirLine, SubdirSep), guess);
            && |entries| == |movies|
            && forall i :: 0 <= i < |movies| ==> entries[i] == FetchOne(Project(movies[i]), net)
  {
    var m := new MovieMeta(subdirLine);
    var fetched := m.GetImdb(root, guess, net);
    entries := m.imdbJSON;
  }
}
