# Searchy search core in Dafny

Searchy is a desktop file finder. It scans a list of folders, at start-up
five folders under the user's home directory (Downloads, Desktop, Documents,
Pictures, Music; the folder dialogs can replace or extend the list), and builds a
flat list of entries, one per file and per directory, each with a base name
and a joined path. A query typed in the entry field may carry the tokens
`nom:<word>`, `type:.<ext>` and `taille<op><digits>`. The parser turns these
into a filter set plus a residual keyword. The filter pass keeps the entries
that satisfy every filter, optionally looking inside text files for the
keyword. The results can be sorted by name, size or date. The history
keeps the ten most recent new queries, in the order they were first
searched; searching a query already in it changes nothing. A favorites list
is toggled path by path. The `SearchEngine` class in `core/search_engine.py` holds the same
scan, parser and filter pass around two fields.

This project models that core and proves properties of it. The modules are:

- `Wrappers`: `Option`.
- `Text`: the character classes and string operations used by the regular
  expressions and the filters, namely whitespace, `\w`, `\d`, `lower()`,
  substring search, `endswith` and `strip()`. It also holds the code-point
  order used by `sorted`.
- `Query`: the three token patterns, with a leftmost `re.search` and a
  left-to-right `re.sub`, and the parser `parse_smart_search`.
- `FileSystem`: a snapshot of the file system (files with size, modification
  time and readable text; directories as ordered trees) and POSIX
  `os.path.join`.
- `Scanner`: the specification of a scan, that is `os.walk` top-down and the
  entries appended for each visited directory.
- `Evaluator`: the filter predicates, their specification `Select`, and the
  loop of `search_files` as a method proved against it.
- `Sorter`: `sort_results` as a stable insertion sort, specified by sortedness,
  permutation and stability.
- `Engine`: the `SearchEngine` class, whose `ScanFiles` rebuilds its
  `fileList` field in place with the nested loops of the source.
- `Searchy`: the module-level functions: the scan of the current folder list,
  `perform_search` with its bounded history, and `toggle_favorite`.

Notes on how the code behaves, which the model follows:

- The parser trims the query only after a token has matched. A query with
  no token is returned as the keyword untouched, including any surrounding
  whitespace (`Query.ParseWithoutTokens`). `perform_search` strips the entry
  text before parsing, so from the UI the keyword is always trimmed.
- `re.sub` deletes every non-overlapping match, but the name, extension or
  size is taken from the first match only (`Query.ExtractCapturesFirstMatch`).
- Deleting a match can join the text on either side into a new token, which
  is then left in the keyword. For example, `nomnom:x:y` gives the name `x`
  and the keyword `nom:y` (`Examples.DeletionExample`). So the keyword is
  not guaranteed to be free of token text.
- `taille=<digits>` is removed from the query but sets no bound
  (`Examples.EqualsSetsNoBound`).

## Model

| member | source | states |
|---|---|---|
| Text.Strip | Searchy.py:110 | the result is the slice of the input left after removing leading and trailing whitespace; the removed parts are all whitespace and the result neither starts nor ends with whitespace; a trimmed input is returned unchanged |
| Query.FindFirst | Searchy.py:107 | `re.search` finds the leftmost position at or after `from` where the pattern matches, and reports none exactly when no such position exists |
| Query.RemoveFrom | Searchy.py:110 | `re.sub(pattern, '', s)` from a position: scanning left to right, each match is deleted up to the end of its greedy run and scanning resumes after it; every other character is kept (definition; its properties are the two lemmas below) |
| Query.RemoveKeepsUnmatched | Searchy.py:110 | `re.sub` copies verbatim any stretch of text in which the pattern matches at no position |
| Query.SubstitutionDropsFirstMatch | Searchy.py:110 | with no match `re.sub` returns the text unchanged; otherwise its output is the text before the leftmost match followed by the substitution applied after that match, so the deleted match is the one `re.search` found |
| Query.Extract | Searchy.py:107-110 | a group is captured exactly when the pattern matches somewhere in the query; with no match the query is returned untouched and not stripped; a captured group has the token's shape (word characters, a dot then word characters, or an operator then digits) |
| Query.ExtractCapturesFirstMatch | Searchy.py:107-110 | when the leftmost match is at `i`, the group is that match's group and the new query is the stripped concatenation of the text before it and the substitution applied after it |
| Query.ParseSmartSearch | Searchy.py:105-124 | the parser never fails; any size it returns is a digit string, so `int()` accepts it; at most one of the two size bounds is set; name and extension groups are well formed |
| Query.ParseWithoutTokens | Searchy.py:105-124 | a query matching none of the three patterns yields only a keyword, equal to the query as given |
| Query.ParseNameIsFirstMatch | Searchy.py:107-109 | the name filter is the word after the leftmost `nom:` followed by a word character |
| Query.ExtractNameToken | Searchy.py:107-110 | `nom:<w> <k>`, where `w` is a non-empty word and `k` is non-empty, starts and ends with a word character and holds no `nom:` match, yields the name `w` and passes on `k` |
| Query.ExtractTypeToken | Searchy.py:111-114 | `type:.<x> <k>`, where `x` is a non-empty word and `k` is non-empty, starts and ends with a word character and holds no `type:.` match, yields the extension `.x` and passes on `k` |
| Query.ExtractSizeToken | Searchy.py:115-122 | `taille<c><d> <k>`, where `c` is `>`, `<` or `=`, `d` is a non-empty digit string and `k` is non-empty, starts and ends with a word character and holds no `taille` match, yields the group `<c><d>` and passes on `k` |
| Query.ParseCanonicalQuery | Searchy.py:105-124 | `nom:w type:.x taille<c>d kw` parses to name `w`, extension `.x`, a minimum size `d` for `>`, a maximum size `d` for `<`, no bound for `=`, and keyword `kw`, where `w` and `x` are non-empty words, `d` is a non-empty digit string, and `kw` is non-empty, starts and ends with a word character and holds no match of any of the three tokens |
| Examples.ExampleQuery | Searchy.py:105-124 | `nom:rapport type:.txt taille>1000 facture` parses to name `rapport`, extension `.txt`, minimum size `1000`, no maximum, and keyword `facture` |
| Examples.EqualsSetsNoBound | Searchy.py:115-123 | `taille=500 budget` parses to keyword `budget` with no name, no extension and neither size bound: the `=` token is removed but sets nothing |
| Examples.DeletionNameStep | Searchy.py:107-110 | in `nom` + `nom:<w>` + `:<y>` the first match is the one after the leading `nom`; its word is captured, and deleting it leaves `nom:<y>` |
| Examples.DeletionFormsToken | Searchy.py:105-124 | for any words `w` and `y`, `nom` + `nom:<w>` + `:<y>` parses to name `w` and keyword `nom:<y>`, so the keyword can hold a complete `nom:` token |
| Examples.DeletionExample | Searchy.py:105-124 | `nomnom:x:y` parses to name `x` and keyword `nom:y` |
| Evaluator.Matches | Searchy.py:129-149 | the value of the `match` flag after one iteration: the keyword in the lower-cased name, the name filter in the name, the name ending in the extension, the size bounds for regular files, and, with content search, the keyword in a readable text file (definition) |
| Evaluator.Select | Searchy.py:126-152 | the results of the pass: the matching entries in list order; never longer than the list |
| Evaluator.SearchFiles | Searchy.py:126-152 | the loop returns exactly the entries of the list, in order, that pass every filter as defined by `Select` |
| Evaluator.SelectIsSubsequence | Searchy.py:129-151 | the results are a subsequence of the file list, so the order is kept and nothing is added |
| Evaluator.SelectMembership | Searchy.py:129-151 | an entry is in the results if and only if it is in the list and passes the keyword, name, extension, size and content filters |
| Evaluator.SelectWithoutFilters | Searchy.py:127-151 | an empty keyword and no other filter, without content search, keep the whole list |
| Evaluator.SelectRespectsSizeBounds | Searchy.py:137-142 | every regular file in the results has a size of at least `min_size` KiB and at most `max_size` KiB |
| Evaluator.SizeBoundsNarrow | Searchy.py:137-142 | for any list, the results with the size bounds are a subsequence of the results with both bounds removed |
| Evaluator.SizeIgnoresNonFiles | Searchy.py:137-142 | for any list, an entry that is not a regular file is a result with the size bounds exactly when it is one without them |
| Evaluator.ContentSearchNarrows | Searchy.py:143-149 | the results with content search are a subsequence of the results without it |
| Evaluator.UnreadableFileExcluded | Searchy.py:143-149 | with content search, a text-extension file that cannot be read is never a result |
| Evaluator.EmptyKeywordReadsAnything | Searchy.py:143-147 | with an empty keyword, content search keeps the same entries as no content search, provided every regular file in the list that has a text extension is readable |
| Sorter.OrderOf | Searchy.py:247-253 | "name", "size" and "date" each select their order, and any other value selects none |
| Sorter.Insert | Searchy.py:248-252 | an entry goes in front of the first entry it must precede, so behind every entry with an equal key (definition; see `Sorter.SortStable`) |
| Sorter.Sort | Searchy.py:248-252 | `sorted` as insertion of each entry, in list order, into the sorted prefix (definition; its properties are the three lemmas below) |
| Sorter.SortPermutes | Searchy.py:248-252 | the sort returns a permutation of its input |
| Sorter.SortSorted | Searchy.py:248-252 | the sort returns a list in which no later entry belongs before an earlier one |
| Sorter.SortStable | Searchy.py:248-252 | entries with equal keys keep their relative order |
| Sorter.SortResults | Searchy.py:246-253 | the result is a permutation of the results; it is ordered by lowered name ascending, or by size or date descending; entries with equal keys keep their order; an unknown key returns the list unchanged |
| Sorter.SortedByName | Searchy.py:248 | after a name sort, every earlier lowered name is equal to or lexicographically below every later one |
| Sorter.SortedDescending | Searchy.py:250-252 | after a size or date sort, every earlier key is at least every later one, with 0 for entries that are not regular files |
| FileSystem.Join | core/search_engine.py:15 | `os.path.join` ends with its second argument; an absolute second argument replaces the first; otherwise the result starts with the first |
| Scanner.Walk | core/search_engine.py:13 | `os.walk` top-down: the directory itself with its subdirectory names and file names, then the walks of its subdirectories in listing order (definition) |
| Scanner.WalkAll | core/search_engine.py:13 | the walks of a directory's subdirectories, one after the other, each at its joined path (definition) |
| Scanner.Scan | core/search_engine.py:10-24 | the file list a scan of the roots builds: for each root in order, nothing if it does not exist, otherwise the entries of its walk, each visited directory's files and then its subdirectories, each under its base name at its joined path (definition; the scan methods are proved equal to it and its properties are the lemmas below) |
| Scanner.ScanAppend | core/search_engine.py:11-12 | roots are scanned in order: scanning `a + b` gives the scan of `a` followed by the scan of `b` |
| Scanner.MissingRootContributesNothing | core/search_engine.py:11-12 | a root that does not exist adds no entries, wherever it stands among the roots |
| Scanner.WalkCount | core/search_engine.py:13-23 | walking a directory yields one entry per file and per subdirectory anywhere below it |
| Scanner.ScanCount | core/search_engine.py:11-23 | the scan has as many entries as there are files and directories below the roots that are directories |
| Scanner.StepEntryListed | core/search_engine.py:14-21 | each entry appended for a visited directory was listed there as a file or a subdirectory, and its path is the directory joined with its name |
| Scanner.EntriesAreJoined | core/search_engine.py:13-23 | every entry of a walk comes from one visited directory, under its listed name and at its joined path |
| Engine.LiveUpdates | core/search_engine.py:16-23 | what the live-update callback has been handed: with a callback, one list per entry appended, the k-th being the first k+1 entries of the final list; without one, nothing (definition) |
| Engine.LiveUpdatesExtend | core/search_engine.py:16-23 | after one more append and callback, the callback has been handed the list after each append so far |
| Engine.SearchEngine.constructor | core/search_engine.py:5-7 | the engine keeps its roots and starts with an empty file list |
| Engine.SearchEngine.ScanFiles | core/search_engine.py:9-24 | the roots are unchanged; the file list is rebuilt from scratch and equals the scan of the roots; the same list is returned; a callback is handed the list after every append |
| Engine.SearchEngine.AppendWalk | core/search_engine.py:13-23 | the walk's entries are appended to the file list, directory by directory, files first |
| Engine.SearchEngine.AppendListed | core/search_engine.py:14-23 | the entries for the listed names are appended in listing order, each with its joined path |
| Engine.SearchEngine.ParseSmartSearch | core/search_engine.py:26-45 | the engine's parser is the module-level parser, and it sets at most one size bound |
| Engine.SearchEngine.SearchFiles | core/search_engine.py:47-73 | the engine's filter pass over its stored list returns `Select` of that list, a subsequence of it |
| Searchy.ScanPaths | Searchy.py:36-38 | one path per folder of the current list, in order, each ending with that folder's name; a relative folder gives a path starting with the home directory, an absolute one is kept as it is |
| Searchy.InitialScanPaths | Searchy.py:36-38 | with the start-up folder list, five paths, each starting with the home directory and ending with its folder's name |
| Searchy.ScanFiles | Searchy.py:40-55 | the list is the scan of the paths of the current folder list, and it has one entry per file and per directory below them; a callback sees the list after every append |
| Searchy.Recorded | Searchy.py:297-300 | the query is in the new history; a known query leaves the history unchanged; a new one becomes the last entry; the history grows by one until it holds ten, then the oldest entry is dropped; at most ten entries are kept |
| Searchy.RecordQuery | Searchy.py:296-301 | the in-place append-and-pop gives `Recorded` |
| Searchy.RecordedStaysDistinct | Searchy.py:297-300 | a history without repeated queries never gets one |
| Searchy.RecordedIdempotent | Searchy.py:297 | recording the same query twice is the same as recording it once |
| Searchy.FirstIndex | Searchy.py:342 | `list.remove` removes at the first index that holds the path |
| Searchy.Toggled | Searchy.py:341-346 | an absent path is appended; for a present one, its first occurrence is removed and the other favorites keep their order, so the list is one shorter and its multiset loses exactly one copy |
| Searchy.ToggleFavorite | Searchy.py:339-347 | the search for the first occurrence and the removal or append give `Toggled` |
| Searchy.ToggleFlipsMembership | Searchy.py:341-346 | in a list without repeats, toggling flips whether the path is a favorite and keeps the list free of repeats |
| Searchy.ToggleTwiceRestores | Searchy.py:341-346 | toggling an absent path twice gives back the original list |
| Searchy.ToggleTwiceMovesToEnd | Searchy.py:341-346 | toggling a present path twice, in a list without repeats, moves it to the end |
| Searchy.PerformSearch | Searchy.py:287-301 | a blank entry, after stripping, stops with a warning and nothing else; otherwise the results are the filter pass over the list with the parsed stripped query, and the stripped query is recorded in the history |

## Left out

- Tkinter UI: windows, widgets, result rendering (`update_results`), the opening of files and folders, and the threads are left out. The warning for a blank query is the `BlankQuery` outcome.
- Loading and saving the history (`json`, Searchy.py:73-87) and the favorites (`pickle`) is I/O. The loaded lists are parameters and the lists to save are results. Failed loads and saves are not modelled.
- The scan cache (`load_cache`, `save_cache` with `pickle`, Searchy.py:57-71, and the start-up at Searchy.py:538-541) is I/O. The file list it loads, or that a first scan builds, is a parameter: the `fileList` of `Searchy.PerformSearch`.
- The file system is a snapshot passed as a parameter, and it does not change during a scan or a search. Symbolic links, permission errors during `os.walk` and the `onerror` handling are not modelled.
- Modification times are integers, not floats. File content is text that is either readable or not; the permissive decoding (`errors='ignore'`) is not modelled byte by byte.
- Text.Lower, Text.IsWordChar, Text.IsDigit: `lower()`, `\w` and `\d` are modelled for ASCII only. Python applies them to all of Unicode.
- Evaluator.SearchFiles: requires the size strings to be digit strings. Only digit strings are modelled, because only the parser produces the sizes and it produces nothing else; `int()` would also accept surrounding whitespace, a sign and underscores. A filter set always carries its keyword, so the default of `filters.get('keyword', '')` is the empty keyword. Python's `int()` also refuses a decimal string of more than 4300 digits (a limit since Python 3.11) and raises `ValueError`; that limit is not modelled, and the model compares the full value.
- Engine.SearchEngine.SearchFiles: does not model the `ValueError` that `int()` raises at core/search_engine.py:59 for a size bound of more than 4300 digits; the method returns the filter pass instead.
- Searchy.PerformSearch: does not model the search aborted by that `ValueError` (Searchy.py:138) for a size bound of more than 4300 digits, which leaves the results and the history unchanged; the model returns the filter pass and records the query.
- Engine.SearchEngine.ScanFiles: the callback receives the list object that keeps growing. The model records the list's contents at the moment of each call, so it does not capture aliasing. The unused `progress_callback` parameter is left out.
- Engine.SearchEngine.ParseSmartSearch and Engine.SearchEngine.SearchFiles call the module-level definitions, because the two source files hold the same code.
- The claim that the keyword never contains token text is not stated, because the code does not guarantee it: `Examples.DeletionExample` shows a keyword that holds a `nom:` token.
- FileSystem.Join: models POSIX `os.path.join` (`/` separator, an absolute second part replaces the first). The application opens files with `os.startfile` (Searchy.py:205, 232), which exists only on Windows, where `os.path.join` uses backslashes and drive letters; the Windows joining rules are not modelled.
- Searchy.ScanPaths: the home directory and the current folder list are parameters rather than being read from the environment and the global `FOLDERS_TO_SCAN`. The folder dialogs that change that list (Searchy.py:416-417, 440-441, 458-459) are UI and are not modelled; `Searchy.FoldersToScan` is the start-up list.
