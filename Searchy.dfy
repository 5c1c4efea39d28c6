/** The module-level search functions of the application: the scan of the
    user's folders, the search triggered from the entry field with its
    bounded query history, and the favorites toggle. Loading and saving the
    history and the favorites are I/O; the lists they load are parameters
    here and the lists they would save are results. */
module Searchy {
  import opened Text
  import opened FileSystem
  import opened Scanner
  import opened Query
  import opened Evaluator
  import opened Engine

  /** The folders a scan visits at start-up, in order, relative to the home
      directory. The folder dialogs replace this list with base names or
      append absolute paths, so the scan functions take the current list. */
  const FoldersToScan: seq<string> := ["Downloads", "Desktop", "Documents", "Pictures", "Music"]

  /** The number of queries the history keeps. */
  const HistoryLimit: nat := 10

  /** `get_scan_paths()` for the home directory `home` and the current
      folder list `folders`: a relative folder lies below home, an absolute
      one is taken as it is. */
  function ScanPaths(home: string, folders: seq<string>): (r: seq<string>)
    ensures |r| == |folders|
    ensures forall i :: 0 <= i < |r| ==> EndsWith(r[i], folders[i])
    ensures forall i :: 0 <= i < |r| && (folders[i] == [] || folders[i][0] != '/') ==> StartsWith(r[i], home)
    ensures forall i :: 0 <= i < |r| && folders[i] != [] && folders[i][0] == '/' ==> r[i] == folders[i]
  {
    seq(|folders|, i requires 0 <= i < |folders| => Join(home, folders[i]))
  }

  /** At start-up the scan visits five paths, each below the home directory
      and ending with its folder's name. */
  lemma InitialScanPaths(home: string)
    ensures |ScanPaths(home, FoldersToScan)| == 5
    ensures forall i :: 0 <= i < 5 ==> StartsWith(ScanPaths(home, FoldersToScan)[i], home)
    ensures forall i :: 0 <= i < 5 ==> EndsWith(ScanPaths(home, FoldersToScan)[i], FoldersToScan[i])
  {
    var r := ScanPaths(home, FoldersToScan);
    forall i | 0 <= i < 5
      ensures StartsWith(r[i], home)
    {
      assert FoldersToScan[i][0] != '/';
    }
  }

  /** `scan_files(live_update_callback)`: the same loops as the engine's
      scan, over the paths of the current folder list. */
  method ScanFiles(home: string, folders: seq<string>, fs: FileSystem, live: bool) returns (list: seq<Entry>, updates: seq<seq<Entry>>)
    ensures list == Scan(ScanPaths(home, folders), fs)
    ensures |list| == Total(ScanPaths(home, folders), fs)
    ensures LiveUpdates(updates, list, live)
  {
    var engine := new SearchEngine(ScanPaths(home, folders));
    list, updates := engine.ScanFiles(fs, live);
    ScanCount(ScanPaths(home, folders), fs);
  }

  predicate Distinct(s: seq<string>) {
    forall i, j :: 0 <= i < j < |s| ==> s[i] != s[j]
  }

  /** The history once `query` is recorded: a query already present leaves
      it as it is; a new one becomes the last entry, and when that makes
      the list longer than the limit the oldest entry is dropped. */
  function Recorded(history: seq<string>, query: string): (h: seq<string>)
    ensures query in h
    ensures query in history ==> h == history
    ensures query !in history ==> |h| > 0 && h[|h| - 1] == query
    ensures query !in history ==> |h| == if |history| < HistoryLimit then |history| + 1 else |history|
    ensures query !in history ==> h[..|h| - 1] == history[|history| + 1 - |h|..]
    ensures |history| <= HistoryLimit ==> |h| <= HistoryLimit
  {
    if query in history then history
    else if |history| + 1 > HistoryLimit then history[1..] + [query]
    else history + [query]
  }

  /** The history update of `perform_search`, in place: append when absent,
      then pop the first entry when the list has grown past the limit. */
  method RecordQuery(history: seq<string>, query: string) returns (h: seq<string>)
    ensures h == Recorded(history, query)
  {
    h := history;
    if query !in h {
      h := h + [query];
      if |h| > HistoryLimit {
        h := h[1..];
      }
    }
  }

  lemma DistinctAppend(s: seq<string>, x: string)
    requires Distinct(s) && x !in s
    ensures Distinct(s + [x])
  {
    forall i, j | 0 <= i < j < |s| + 1 ensures (s + [x])[i] != (s + [x])[j] {
      assert (s + [x])[i] == s[i];
    }
  }

  /** A history without repeated queries never gets one. */
  lemma RecordedStaysDistinct(history: seq<string>, query: string)
    requires Distinct(history)
    ensures Distinct(Recorded(history, query))
  {
    if query !in history {
      if |history| + 1 > HistoryLimit {
        var rest := history[1..];
        assert Distinct(rest) by {
          forall i, j | 0 <= i < j < |rest| ensures rest[i] != rest[j] {
            assert rest[i] == history[i + 1] && rest[j] == history[j + 1];
          }
        }
        assert query !in rest by {
          forall i | 0 <= i < |rest| ensures rest[i] != query {
            assert rest[i] == history[i + 1];
          }
        }
        DistinctAppend(rest, query);
      } else {
        DistinctAppend(history, query);
      }
    }
  }

  /** Recording the same query twice is recording it once. */
  lemma RecordedIdempotent(history: seq<string>, query: string)
    ensures Recorded(Recorded(history, query), query) == Recorded(history, query)
  {
  }

  /** The index at which `list.remove(x)` removes: the first occurrence. */
  function FirstIndex(s: seq<string>, x: string): (i: nat)
    requires x in s
    ensures i < |s| && s[i] == x
    ensures forall j :: 0 <= j < i ==> s[j] != x
  {
    if s[0] == x then 0 else 1 + FirstIndex(s[1..], x)
  }

  /** The favorites once `path` is toggled: its first occurrence removed if
      present, otherwise appended. */
  function Toggled(favorites: seq<string>, path: string): (r: seq<string>)
    ensures path !in favorites ==> r == favorites + [path]
    ensures path in favorites ==>
              var i := FirstIndex(favorites, path);
              r == favorites[..i] + favorites[i + 1..]
    ensures path in favorites ==> |r| == |favorites| - 1
    ensures path in favorites ==> multiset(r) == multiset(favorites) - multiset{path}
  {
    if path in favorites then
      var i := FirstIndex(favorites, path);
      assert favorites == favorites[..i] + [path] + favorites[i + 1..];
      favorites[..i] + favorites[i + 1..]
    else favorites + [path]
  }

  /** `toggle_favorite(path)` on the loaded favorites: `remove` scans for the
      first occurrence and closes the gap; otherwise `append`. */
  method ToggleFavorite(favorites: seq<string>, path: string) returns (r: seq<string>)
    ensures r == Toggled(favorites, path)
  {
    r := favorites;
    if path in r {
      var i := 0;
      while r[i] != path
        invariant 0 <= i < |r|
        invariant path in r[i..]
        invariant forall j :: 0 <= j < i ==> r[j] != path
        decreases |r| - i
      {
        i := i + 1;
      }
      assert i == FirstIndex(favorites, path);
      r := r[..i] + r[i + 1..];
    } else {
      r := r + [path];
    }
  }

  /** In a list without repeats, toggling flips membership and keeps the
      list free of repeats. */
  lemma ToggleFlipsMembership(favorites: seq<string>, path: string)
    requires Distinct(favorites)
    ensures (path in Toggled(favorites, path)) <==> path !in favorites
    ensures Distinct(Toggled(favorites, path))
  {
    var r := Toggled(favorites, path);
    if path in favorites {
      var i := FirstIndex(favorites, path);
      assert r == favorites[..i] + favorites[i + 1..];
      forall k | 0 <= k < |r| ensures r[k] != path && r[k] == favorites[if k < i then k else k + 1] {
      }
    }
  }

  /** Toggling an absent path twice gives back the original list. */
  lemma ToggleTwiceRestores(favorites: seq<string>, path: string)
    requires path !in favorites
    ensures Toggled(Toggled(favorites, path), path) == favorites
  {
    var r := favorites + [path];
    assert FirstIndex(r, path) == |favorites|;
    assert r[..|favorites|] == favorites;
  }

  /** Toggling a present path twice, in a list without repeats, moves it
      to the end. */
  lemma ToggleTwiceMovesToEnd(favorites: seq<string>, path: string)
    requires Distinct(favorites) && path in favorites
    ensures Toggled(Toggled(favorites, path), path) == Toggled(favorites, path) + [path]
  {
    ToggleFlipsMembership(favorites, path);
  }

  /** What a search from the entry field leads to: a warning for a blank
      query, otherwise the results and the updated history. */
  datatype SearchOutcome = BlankQuery | Searched(results: seq<Entry>, history: seq<string>)

  /** `perform_search()`: the entry text is stripped; a blank query stops
      with a warning; otherwise it is parsed, the stored list is filtered,
      and the stripped query is recorded in the history. */
  method PerformSearch(entry: string, fileList: seq<Entry>, contentSearch: bool, history: seq<string>, fs: FileSystem)
    returns (outcome: SearchOutcome)
    ensures outcome.BlankQuery? <==> Strip(entry) == []
    ensures outcome.Searched? ==>
              && outcome.results == Select(fileList, ParseSmartSearch(Strip(entry)), contentSearch, fs)
              && outcome.history == Recorded(history, Strip(entry))
  {
    var query := Strip(entry);
    if query == [] {
      return BlankQuery;
    }
    var filters := ParseSmartSearch(query);
    var results := SearchFiles(fileList, filters, contentSearch, fs);
    var h := RecordQuery(history, query);
    outcome := Searched(results, h);
  }
}
