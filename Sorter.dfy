/** `sort_results`: Python's `sorted` is stable, also with `reverse=True`
    (entries with equal keys keep their order). By name the key is the
    lower-cased name, ascending; by size and by date the key is the file's
    size or modification time, 0 for anything that is not a regular file,
    descending. Any other choice returns the results as they are. The sort
    is specified by insertion: each entry goes in front of the first entry
    it must precede. */
module Sorter {
  import opened Wrappers
  import opened Text
  import opened FileSystem

  datatype Order = ByName | BySize | ByDate

  /** The `sort_by` values the sorter recognises. */
  function OrderOf(sortBy: string): (o: Option<Order>)
    ensures o == Some(ByName) <==> sortBy == "name"
    ensures o == Some(BySize) <==> sortBy == "size"
    ensures o == Some(ByDate) <==> sortBy == "date"
  {
    if sortBy == "name" then Some(ByName)
    else if sortBy == "size" then Some(BySize)
    else if sortBy == "date" then Some(ByDate)
    else None
  }

  function NameKey(e: Entry): string {
    Lower(e.name)
  }

  /** `os.path.getsize` or `os.path.getmtime` for a regular file, else 0. */
  function NumKey(o: Order, e: Entry, fs: FileSystem): int {
    if !IsFile(fs, e.path) then 0
    else if o == BySize then fs.files[e.path].size
    else fs.files[e.path].mtime
  }

  /** `x` belongs strictly in front of `y`. */
  predicate Before(o: Order, x: Entry, y: Entry, fs: FileSystem) {
    if o == ByName then LexLess(NameKey(x), NameKey(y)) else NumKey(o, x, fs) > NumKey(o, y, fs)
  }

  /** `x` and `y` have equal keys. */
  predicate SameKey(o: Order, x: Entry, y: Entry, fs: FileSystem) {
    if o == ByName then NameKey(x) == NameKey(y) else NumKey(o, x, fs) == NumKey(o, y, fs)
  }

  /** Any two entries compare in exactly one way. */
  lemma KeyTrichotomy(o: Order, x: Entry, y: Entry, fs: FileSystem)
    ensures Before(o, x, y, fs) || Before(o, y, x, fs) || SameKey(o, x, y, fs)
    ensures !(Before(o, x, y, fs) && Before(o, y, x, fs))
    ensures SameKey(o, x, y, fs) ==> !Before(o, x, y, fs)
  {
    if o == ByName {
      LexLessTotal(NameKey(x), NameKey(y));
      LexLessIrreflexive(NameKey(x));
      if LexLess(NameKey(x), NameKey(y)) && LexLess(NameKey(y), NameKey(x)) {
        LexLessTransitive(NameKey(x), NameKey(y), NameKey(x));
      }
    }
  }

  lemma BeforeTransitive(o: Order, x: Entry, y: Entry, z: Entry, fs: FileSystem)
    requires Before(o, x, y, fs) && Before(o, y, z, fs)
    ensures Before(o, x, z, fs)
  {
    if o == ByName {
      LexLessTransitive(NameKey(x), NameKey(y), NameKey(z));
    }
  }

  /** No entry belongs in front of an earlier one. */
  predicate Sorted(o: Order, s: seq<Entry>, fs: FileSystem) {
    forall i, j :: 0 <= i < j < |s| ==> !Before(o, s[j], s[i], fs)
  }

  /** The entries of `s` whose key equals that of `y`, in order. */
  function Ties(o: Order, s: seq<Entry>, y: Entry, fs: FileSystem): seq<Entry> {
    if s == [] then []
    else (if SameKey(o, s[0], y, fs) then [s[0]] else []) + Ties(o, s[1..], y, fs)
  }

  /** `x` goes in front of the first entry of `s` it must precede. */
  function Insert(o: Order, x: Entry, s: seq<Entry>, fs: FileSystem): seq<Entry> {
    if s == [] then [x]
    else if Before(o, x, s[0], fs) then [x] + s
    else [s[0]] + Insert(o, x, s[1..], fs)
  }

  /** The stable sort: the entries inserted one after another. */
  function Sort(o: Order, s: seq<Entry>, fs: FileSystem): seq<Entry> {
    if s == [] then [] else Insert(o, s[|s| - 1], Sort(o, s[..|s| - 1], fs), fs)
  }

  lemma {:induction false} InsertPermutes(o: Order, x: Entry, s: seq<Entry>, fs: FileSystem)
    ensures multiset(Insert(o, x, s, fs)) == multiset(s) + multiset{x}
    decreases |s|
  {
    if s != [] && !Before(o, x, s[0], fs) {
      InsertPermutes(o, x, s[1..], fs);
      assert s == [s[0]] + s[1..];
    }
  }

  /** An entry that must precede the head of a sorted sequence must precede
      all of it. */
  lemma PrecedesAll(o: Order, x: Entry, s: seq<Entry>, fs: FileSystem, j: int)
    requires Sorted(o, s, fs) && s != [] && Before(o, x, s[0], fs) && 0 <= j < |s|
    ensures Before(o, x, s[j], fs)
  {
    if j > 0 {
      KeyTrichotomy(o, s[0], s[j], fs);
      if Before(o, s[0], s[j], fs) {
        BeforeTransitive(o, x, s[0], s[j], fs);
      }
    }
  }

  lemma {:induction false} InsertSorted(o: Order, x: Entry, s: seq<Entry>, fs: FileSystem)
    requires Sorted(o, s, fs)
    ensures Sorted(o, Insert(o, x, s, fs), fs)
    decreases |s|
  {
    if s == [] {
    } else if Before(o, x, s[0], fs) {
      var r := [x] + s;
      forall i, j | 0 <= i < j < |r| ensures !Before(o, r[j], r[i], fs) {
        if i == 0 {
          PrecedesAll(o, x, s, fs, j - 1);
          KeyTrichotomy(o, x, s[j - 1], fs);
        }
      }
    } else {
      var t := Insert(o, x, s[1..], fs);
      InsertSorted(o, x, s[1..], fs);
      InsertPermutes(o, x, s[1..], fs);
      var r := [s[0]] + t;
      forall i, j | 0 <= i < j < |r| ensures !Before(o, r[j], r[i], fs) {
        if i == 0 {
          assert r[j] in multiset(t);
          assert r[j] == x || r[j] in s[1..];
        }
      }
    }
  }

  lemma SortedTail(o: Order, s: seq<Entry>, fs: FileSystem)
    requires Sorted(o, s, fs) && s != []
    ensures Sorted(o, s[1..], fs)
  {
    forall i, j | 0 <= i < j < |s| - 1 ensures !Before(o, s[1..][j], s[1..][i], fs) {
      assert s[1..][j] == s[j + 1] && s[1..][i] == s[i + 1];
    }
  }

  lemma TiesCons(o: Order, x: Entry, s: seq<Entry>, y: Entry, fs: FileSystem)
    ensures Ties(o, [x] + s, y, fs) == (if SameKey(o, x, y, fs) then [x] else []) + Ties(o, s, y, fs)
  {
    assert ([x] + s)[0] == x && ([x] + s)[1..] == s;
  }

  /** Ties with `y` of a concatenation are the ties of each part. */
  lemma {:induction false} TiesAppend(o: Order, a: seq<Entry>, b: seq<Entry>, y: Entry, fs: FileSystem)
    ensures Ties(o, a + b, y, fs) == Ties(o, a, y, fs) + Ties(o, b, y, fs)
    decreases |a|
  {
    if a == [] {
      assert a + b == b;
    } else {
      var x, t := a[0], a[1..];
      assert a == [x] + t && a + b == [x] + (t + b);
      TiesAppend(o, t, b, y, fs);
      TiesCons(o, x, t + b, y, fs);
      TiesCons(o, x, t, y, fs);
    }
  }

  lemma {:induction false} NoTies(o: Order, s: seq<Entry>, y: Entry, fs: FileSystem)
    requires forall j :: 0 <= j < |s| ==> !SameKey(o, s[j], y, fs)
    ensures Ties(o, s, y, fs) == []
    decreases |s|
  {
    if s != [] {
      NoTies(o, s[1..], y, fs);
    }
  }

  /** An entry placed in front of a sorted sequence it must precede is
      behind every entry with its key: there is none. */
  lemma FrontTies(o: Order, x: Entry, s: seq<Entry>, y: Entry, fs: FileSystem)
    requires Sorted(o, s, fs) && s != [] && Before(o, x, s[0], fs)
    ensures Ties(o, [x] + s, y, fs) == Ties(o, s, y, fs) + (if SameKey(o, x, y, fs) then [x] else [])
  {
    assert ([x] + s)[0] == x && ([x] + s)[1..] == s;
    if SameKey(o, x, y, fs) {
      forall j | 0 <= j < |s| ensures !SameKey(o, s[j], y, fs) {
        PrecedesAll(o, x, s, fs, j);
        KeyTrichotomy(o, x, s[j], fs);
      }
      NoTies(o, s, y, fs);
    }
  }

  /** Inserting `x` puts it behind every entry with the same key. */
  lemma {:induction false} InsertTies(o: Order, x: Entry, s: seq<Entry>, y: Entry, fs: FileSystem)
    requires Sorted(o, s, fs)
    ensures Ties(o, Insert(o, x, s, fs), y, fs)
            == Ties(o, s, y, fs) + (if SameKey(o, x, y, fs) then [x] else [])
    decreases |s|
  {
    if s == [] {
    } else if Before(o, x, s[0], fs) {
      assert Insert(o, x, s, fs) == [x] + s;
      FrontTies(o, x, s, y, fs);
    } else {
      var t := Insert(o, x, s[1..], fs);
      assert Insert(o, x, s, fs) == [s[0]] + t;
      SortedTail(o, s, fs);
      InsertTies(o, x, s[1..], y, fs);
      TiesCons(o, s[0], t, y, fs);
      TiesCons(o, s[0], s[1..], y, fs);
      assert [s[0]] + s[1..] == s;
    }
  }

  lemma {:induction false} SortPermutes(o: Order, s: seq<Entry>, fs: FileSystem)
    ensures multiset(Sort(o, s, fs)) == multiset(s)
    decreases |s|
  {
    if s != [] {
      SortPermutes(o, s[..|s| - 1], fs);
      InsertPermutes(o, s[|s| - 1], Sort(o, s[..|s| - 1], fs), fs);
      assert s == s[..|s| - 1] + [s[|s| - 1]];
    }
  }

  lemma {:induction false} SortSorted(o: Order, s: seq<Entry>, fs: FileSystem)
    ensures Sorted(o, Sort(o, s, fs), fs)
    decreases |s|
  {
    if s != [] {
      SortSorted(o, s[..|s| - 1], fs);
      InsertSorted(o, s[|s| - 1], Sort(o, s[..|s| - 1], fs), fs);
    }
  }

  /** Entries with equal keys keep their relative order. */
  lemma {:induction false} SortStable(o: Order, s: seq<Entry>, y: Entry, fs: FileSystem)
    ensures Ties(o, Sort(o, s, fs), y, fs) == Ties(o, s, y, fs)
    decreases |s|
  {
    if s != [] {
      var init, last := s[..|s| - 1], s[|s| - 1];
      SortStable(o, init, y, fs);
      SortSorted(o, init, fs);
      InsertTies(o, last, Sort(o, init, fs), y, fs);
      TiesAppend(o, init, [last], y, fs);
      assert init + [last] == s;
    }
  }

  /** `sort_results(results, sort_by)`: a permutation of the results; for a
      recognised `sort_by` it is sorted by that key and stable, otherwise it
      is the input itself. */
  function SortResults(results: seq<Entry>, sortBy: string, fs: FileSystem): (r: seq<Entry>)
    ensures multiset(r) == multiset(results)
    ensures OrderOf(sortBy).Some? ==> Sorted(OrderOf(sortBy).value, r, fs)
    ensures OrderOf(sortBy).Some? ==>
              forall y :: Ties(OrderOf(sortBy).value, r, y, fs) == Ties(OrderOf(sortBy).value, results, y, fs)
    ensures OrderOf(sortBy).None? ==> r == results
  {
    match OrderOf(sortBy)
    case None => results
    case Some(o) =>
      SortPermutes(o, results, fs);
      SortSorted(o, results, fs);
      forall y ensures Ties(o, Sort(o, results, fs), y, fs) == Ties(o, results, y, fs) {
        SortStable(o, results, y, fs);
      }
      Sort(o, results, fs)
  }

  /** By name, lower-cased names ascend. */
  lemma SortedByName(r: seq<Entry>, fs: FileSystem, i: int, j: int)
    requires Sorted(ByName, r, fs) && 0 <= i < j < |r|
    ensures NameKey(r[i]) == NameKey(r[j]) || LexLess(NameKey(r[i]), NameKey(r[j]))
  {
    LexLessTotal(NameKey(r[i]), NameKey(r[j]));
  }

  /** By size or date, keys descend, with 0 for anything not a regular file. */
  lemma SortedDescending(o: Order, r: seq<Entry>, fs: FileSystem, i: int, j: int)
    requires o != ByName && Sorted(o, r, fs) && 0 <= i < j < |r|
    ensures NumKey(o, r[i], fs) >= NumKey(o, r[j], fs)
  {
  }
}
