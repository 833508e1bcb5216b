/**
 * The directory walk over an in-memory tree. A directory's listing is the
 * sequence of its children in listing order; an unreadable directory is one
 * whose listing fails.
 *
 * The rule walked is the one `_walk` applies to every listed name: a name
 * that appears in the configured `subdirs` list is descended into when it is
 * a directory and otherwise ignored; every other name, directory or not, is
 * handed to the name guesser as it stands and not descended into.
 */
module Scan {
  import opened Records

  datatype Entry =
    | File(name: string)
    | Dir(name: string, children: seq<Entry>)
    | Unreadable(name: string)

  /** `os.path.isdir`: an unreadable directory is still a directory. */
  predicate IsDir(e: Entry) {
    e.Dir? || e.Unreadable?
  }

  /** The number of entries in the tree rooted at `e`, `e` included. */
  function Size(e: Entry): nat
    decreases e, 1
  {
    if e.Dir? then 1 + SizeAll(e.children) else 1
  }

  /** The number of entries in the trees of a listing. */
  function SizeAll(entries: seq<Entry>): nat
    decreases entries, 0
  {
    if entries == [] then 0 else Size(entries[0]) + SizeAll(entries[1..])
  }

  /**
   * The guesses `_walk(top)` appends, in order. Nothing when `top` cannot be
   * listed; otherwise at most one guess per entry below `top`, since no entry
   * is guessed twice and `top` itself is never guessed.
   */
  function Walk(top: Entry, subdirs: seq<string>, guess: string -> Guess): (guesses: seq<Guess>)
    ensures !top.Dir? ==> guesses == []
    ensures |guesses| < Size(top)
    decreases top, 1
  {
    if top.Dir? then WalkEntries(top.children, subdirs, guess) else []
  }

  /**
   * The guesses appended while going through `entries` in order: at most one
   * per entry of their trees.
   */
  function WalkEntries(entries: seq<Entry>, subdirs: seq<string>, guess: string -> Guess): (guesses: seq<Guess>)
    ensures |guesses| <= SizeAll(entries)
    decreases entries, 0
  {
    if entries == [] then []
    else Visit(entries[0], subdirs, guess) + WalkEntries(entries[1..], subdirs, guess)
  }

  /**
   * What one listed entry contributes: an unlisted entry exactly its guess,
   * a listed directory the walk of its listing, a listed file nothing.
   */
  function Visit(e: Entry, subdirs: seq<string>, guess: string -> Guess): (guesses: seq<Guess>)
    ensures e.name !in subdirs ==> guesses == [guess(e.name)]
    ensures e.name in subdirs && !e.Dir? ==> guesses == []
    ensures |guesses| <= Size(e)
    decreases e, 2
  {
    if e.name in subdirs then
      (if IsDir(e) then Walk(e, subdirs, guess) else [])
    else
      [guess(e.name)]
  }

  /** Going through two listings one after the other appends their guesses one after the other. */
  lemma {:induction false} WalkEntriesConcat(a: seq<Entry>, b: seq<Entry>, subdirs: seq<string>, guess: string -> Guess)
    ensures WalkEntries(a + b, subdirs, guess) == WalkEntries(a, subdirs, guess) + WalkEntries(b, subdirs, guess)
  {
    if a != [] {
      WalkEntriesConcat(a[1..], b, subdirs, guess);
      assert (a + b)[1..] == a[1..] + b;
    } else {
      assert a + b == b;
    }
  }

  /**
   * The contribution of entry `k` of a listing, between those of the entries
   * before and after it: an unlisted entry adds exactly its guess; a listed
   * directory adds the walk of its own listing; a listed file or a listed
   * unreadable directory adds nothing, and the walk goes on past it.
   */
  lemma EntryContribution(entries: seq<Entry>, k: nat, subdirs: seq<string>, guess: string -> Guess)
    requires k < |entries|
    ensures var before := WalkEntries(entries[..k], subdirs, guess);
            var after := WalkEntries(entries[k + 1..], subdirs, guess);
            var e := entries[k];
            && (e.name !in subdirs ==> WalkEntries(entries, subdirs, guess) == before + [guess(e.name)] + after)
            && (e.name in subdirs && e.Dir? ==>
                  WalkEntries(entries, subdirs, guess) == before + WalkEntries(e.children, subdirs, guess) + after)
            && (e.name in subdirs && !e.Dir? ==> WalkEntries(entries, subdirs, guess) == before + after)
  {
    VisitBetween(entries, k, subdirs, guess);
    if entries[k].Dir? {
      assert Walk(entries[k], subdirs, guess) == WalkEntries(entries[k].children, subdirs, guess);
    }
  }

  /** The walk of a listing is the walk before entry `k`, then what `k` contributes, then the walk after it. */
  lemma VisitBetween(entries: seq<Entry>, k: nat, subdirs: seq<string>, guess: string -> Guess)
    requires k < |entries|
    ensures WalkEntries(entries, subdirs, guess)
            == WalkEntries(entries[..k], subdirs, guess) + Visit(entries[k], subdirs, guess)
               + WalkEntries(entries[k + 1..], subdirs, guess)
  {
    var rest := [entries[k]] + entries[k + 1..];
    assert entries == entries[..k] + rest;
    WalkEntriesConcat(entries[..k], rest, subdirs, guess);
    assert rest[1..] == entries[k + 1..];
  }

  /**
   * When no name of a listing is in `subdirs`, nothing is descended into and
   * the walk is the guess of each name, one per entry, in listing order.
   */
  lemma {:induction false} FlatWhenNothingListed(entries: seq<Entry>, subdirs: seq<string>, guess: string -> Guess)
    requires forall i :: 0 <= i < |entries| ==> entries[i].name !in subdirs
    ensures |WalkEntries(entries, subdirs, guess)| == |entries|
    ensures forall i :: 0 <= i < |entries| ==> WalkEntries(entries, subdirs, guess)[i] == guess(entries[i].name)
  {
    if entries != [] {
      FlatWhenNothingListed(entries[1..], subdirs, guess);
    }
  }
}
