/** The `SearchEngine` class: the scan roots and the file list of the last
    scan, a rescan that rebuilds the list in place, and the parser and the
    filter pass over the stored list. The live-update callback is modelled
    by the sequence of lists it is handed, one per call. */
module Engine {
  import opened FileSystem
  import opened Scanner
  import Query
  import Evaluator

  /** What a live-update callback has been handed after `list` was built
      one entry at a time: the list after each append, in order; nothing
      when no callback was given. */
  predicate LiveUpdates(updates: seq<seq<Entry>>, list: seq<Entry>, live: bool) {
    if live then |updates| == |list| && forall k :: 0 <= k < |updates| ==> updates[k] == list[..k + 1]
    else updates == []
  }

  /** Appending one entry and calling the callback keeps the updates in step
      with the list: each call sees one element more, earlier ones unchanged. */
  lemma LiveUpdatesExtend(updates: seq<seq<Entry>>, list: seq<Entry>, live: bool, e: Entry)
    requires LiveUpdates(updates, list, live)
    ensures LiveUpdates(if live then updates + [list + [e]] else updates, list + [e], live)
  {
    if live {
      var list' := list + [e];
      forall k | 0 <= k < |updates| + 1
        ensures (updates + [list'])[k] == list'[..k + 1]
      {
        if k < |updates| {
          assert list'[..k + 1] == list[..k + 1];
        }
      }
    }
  }

  lemma AppendTwice(a: seq<Entry>, b: seq<Entry>, c: seq<Entry>)
    ensures a + b + c == a + (b + c)
  {
  }

  class SearchEngine {
    var scanPaths: seq<string>
    var fileList: seq<Entry>

    /** `SearchEngine(scan_paths)`: the roots are kept, the list starts empty. */
    constructor (scanPaths: seq<string>)
      ensures this.scanPaths == scanPaths && fileList == []
    {
      this.scanPaths := scanPaths;
      fileList := [];
    }

    /** `scan_files(live_update_callback)`: the list is emptied, then every
        existing root is walked and each directory's files and then its
        subdirectories are appended. The new list depends only on the roots
        and the file system, it is also returned, and a callback is handed
        the list after every single append. */
    method ScanFiles(fs: FileSystem, live: bool) returns (list: seq<Entry>, updates: seq<seq<Entry>>)
      modifies this`fileList
      ensures scanPaths == old(scanPaths)
      ensures fileList == Scan(scanPaths, fs) && list == fileList
      ensures LiveUpdates(updates, list, live)
    {
      fileList := [];
      updates := [];
      var r := 0;
      while r < |scanPaths|
        invariant 0 <= r <= |scanPaths|
        invariant fileList == Scan(scanPaths[..r], fs)
        invariant LiveUpdates(updates, fileList, live)
      {
        var folder := scanPaths[r];
        ghost var before := fileList;
        if Exists(fs, folder) {
          updates := AppendWalk(WalkOf(fs, folder), live, updates);
        }
        assert fileList == before + RootEntries(fs, folder);
        assert scanPaths[..r + 1][..r] == scanPaths[..r];
        assert Scan(scanPaths[..r + 1], fs) == Scan(scanPaths[..r], fs) + RootEntries(fs, folder);
        r := r + 1;
      }
      assert scanPaths[..r] == scanPaths;
      list := fileList;
    }

    /** The loop over what `os.walk` yields for one root: for each visited
        directory, its files and then its subdirectories are appended. */
    method AppendWalk(steps: seq<Step>, live: bool, updates: seq<seq<Entry>>)
      returns (updates': seq<seq<Entry>>)
      requires LiveUpdates(updates, fileList, live)
      modifies this`fileList
      ensures fileList == old(fileList) + StepsEntries(steps)
      ensures LiveUpdates(updates', fileList, live)
    {
      updates' := updates;
      var k := 0;
      while k < |steps|
        invariant 0 <= k <= |steps|
        invariant fileList == old(fileList) + StepsEntries(steps[..k])
        invariant LiveUpdates(updates', fileList, live)
      {
        ghost var done := fileList;
        var step := steps[k];
        updates' := AppendListed(step.dir, step.files, live, updates');
        updates' := AppendListed(step.dir, step.dirs, live, updates');
        AppendTwice(done, EntriesOf(step.dir, step.files), EntriesOf(step.dir, step.dirs));
        StepsEntriesNext(steps, k);
        AppendTwice(old(fileList), StepsEntries(steps[..k]), StepEntries(step));
        k := k + 1;
      }
      assert steps[..k] == steps;
    }

    /** One of the two inner loops of `scan_files`: the entries for `names`
        listed in `dir` are appended one at a time, and after each append a
        callback, if any, is handed the list. */
    method AppendListed(dir: string, names: seq<string>, live: bool, updates: seq<seq<Entry>>)
      returns (updates': seq<seq<Entry>>)
      requires LiveUpdates(updates, fileList, live)
      modifies this`fileList
      ensures fileList == old(fileList) + EntriesOf(dir, names)
      ensures LiveUpdates(updates', fileList, live)
    {
      updates' := updates;
      var i := 0;
      while i < |names|
        invariant 0 <= i <= |names|
        invariant fileList == old(fileList) + EntriesOf(dir, names[..i])
        invariant LiveUpdates(updates', fileList, live)
      {
        var path := Join(dir, names[i]);
        LiveUpdatesExtend(updates', fileList, live, Entry(names[i], path));
        fileList := fileList + [Entry(names[i], path)];
        if live {
          updates' := updates' + [fileList];
        }
        EntriesOfNext(dir, names, i);
        i := i + 1;
      }
      assert names[..i] == names;
    }

    /** `parse_smart_search`: the same parser as the module-level one; it
        reads no state. At most one size bound is set. */
    method ParseSmartSearch(query: string) returns (f: Query.Filters)
      ensures f == Query.ParseSmartSearch(query)
      ensures f.SizesAreNumerals() && (f.minSize.None? || f.maxSize.None?)
    {
      f := Query.ParseSmartSearch(query);
    }

    /** `search_files(filters, content_search)`: the filter pass over the
        stored list. It changes neither the list nor the roots. */
    method SearchFiles(filters: Query.Filters, contentSearch: bool, fs: FileSystem) returns (results: seq<Entry>)
      requires filters.SizesAreNumerals()
      ensures results == Evaluator.Select(fileList, filters, contentSearch, fs)
      ensures Evaluator.IsSubsequence(results, fileList)
    {
      results := Evaluator.SearchFiles(fileList, filters, contentSearch, fs);
      Evaluator.SelectIsSubsequence(fileList, filters, contentSearch, fs);
    }
  }
}
