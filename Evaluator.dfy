/** The filter evaluation of `search_files`: one pass over the file list
    that keeps, in order, the entries every filter accepts. The predicates
    here say when one entry is kept; `Select` is what the pass builds, and
    `SearchFiles` is the pass itself, with its `match` flag. */
module Evaluator {
  import opened Wrappers
  import opened Text
  import opened FileSystem
  import opened Query

  /** The keyword the filters compare with, lower-cased once before the pass. */
  function Keyword(f: Filters): string {
    Lower(f.keyword)
  }

  /** The extensions whose files the content search opens, tested on the
      lower-cased path. */
  predicate HasTextExtension(path: string) {
    var p := Lower(path);
    EndsWith(p, ".txt") || EndsWith(p, ".py") || EndsWith(p, ".md")
    || EndsWith(p, ".html") || EndsWith(p, ".css") || EndsWith(p, ".js")
  }

  /** A non-empty keyword must occur in the lower-cased name. */
  predicate KeywordPasses(f: Filters, e: Entry) {
    !(Keyword(f) != [] && !Contains(Lower(e.name), Keyword(f)))
  }

  /** The `name` filter must occur in the name, both lower-cased. */
  predicate NamePasses(f: Filters, e: Entry) {
    f.name.None? || Contains(Lower(e.name), Lower(f.name.value))
  }

  /** The `extension` filter must end the name, both lower-cased. */
  predicate ExtensionPasses(f: Filters, e: Entry) {
    f.extension.None? || EndsWith(Lower(e.name), Lower(f.extension.value))
  }

  /** A regular file is at least `min_size` KiB; other entries pass. */
  predicate MinSizePasses(f: Filters, e: Entry, fs: FileSystem)
    requires f.SizesAreNumerals()
  {
    !(f.minSize.Some? && IsFile(fs, e.path))
    || !(fs.files[e.path].size < NumeralValue(f.minSize.value) * 1024)
  }

  /** A regular file is at most `max_size` KiB; other entries pass. */
  predicate MaxSizePasses(f: Filters, e: Entry, fs: FileSystem)
    requires f.SizesAreNumerals()
  {
    !(f.maxSize.Some? && IsFile(fs, e.path))
    || !(fs.files[e.path].size > NumeralValue(f.maxSize.value) * 1024)
  }

  /** With content search on, a regular file with a text extension must be
      readable and its lower-cased text must hold the keyword. */
  predicate ContentPasses(f: Filters, e: Entry, contentSearch: bool, fs: FileSystem) {
    !(contentSearch && IsFile(fs, e.path) && HasTextExtension(e.path))
    || (var text := fs.files[e.path].content;
        text.Some? && Contains(Lower(text.value), Keyword(f)))
  }

  /** The `match` flag at the end of one iteration of the pass. */
  predicate Matches(f: Filters, e: Entry, contentSearch: bool, fs: FileSystem)
    requires f.SizesAreNumerals()
  {
    && KeywordPasses(f, e)
    && NamePasses(f, e)
    && ExtensionPasses(f, e)
    && MinSizePasses(f, e, fs)
    && MaxSizePasses(f, e, fs)
    && ContentPasses(f, e, contentSearch, fs)
  }

  /** The results of the pass over `entries`: the matching entries, in order. */
  function Select(entries: seq<Entry>, f: Filters, contentSearch: bool, fs: FileSystem): (r: seq<Entry>)
    requires f.SizesAreNumerals()
    ensures |r| <= |entries|
  {
    if entries == [] then []
    else
      var last := entries[|entries| - 1];
      Select(entries[..|entries| - 1], f, contentSearch, fs)
      + (if Matches(f, last, contentSearch, fs) then [last] else [])
  }

  /** Passing over one more entry appends it when it matches. */
  lemma SelectNext(entries: seq<Entry>, f: Filters, contentSearch: bool, fs: FileSystem, i: nat)
    requires f.SizesAreNumerals() && i < |entries|
    ensures Select(entries[..i + 1], f, contentSearch, fs)
            == Select(entries[..i], f, contentSearch, fs)
               + (if Matches(f, entries[i], contentSearch, fs) then [entries[i]] else [])
  {
    assert entries[..i + 1][..i] == entries[..i];
  }

  /** `search_files(file_list, filters, content_search)`. The size bounds must
      be digit strings, as `int()` demands; the parser only produces such. */
  method SearchFiles(fileList: seq<Entry>, f: Filters, contentSearch: bool, fs: FileSystem)
    returns (results: seq<Entry>)
    requires f.SizesAreNumerals()
    ensures results == Select(fileList, f, contentSearch, fs)
  {
    var keyword := Lower(f.keyword);
    results := [];
    var i := 0;
    while i < |fileList|
      invariant 0 <= i <= |fileList|
      invariant results == Select(fileList[..i], f, contentSearch, fs)
    {
      var e := fileList[i];
      var name := Lower(e.name);
      var matched := true;
      if keyword != [] && !Contains(name, keyword) {
        matched := false;
      }
      if f.name.Some? && !Contains(name, Lower(f.name.value)) {
        matched := false;
      }
      if f.extension.Some? && !EndsWith(name, Lower(f.extension.value)) {
        matched := false;
      }
      if f.minSize.Some? && IsFile(fs, e.path) {
        if fs.files[e.path].size < NumeralValue(f.minSize.value) * 1024 {
          matched := false;
        }
      }
      if f.maxSize.Some? && IsFile(fs, e.path) {
        if fs.files[e.path].size > NumeralValue(f.maxSize.value) * 1024 {
          matched := false;
        }
      }
      if contentSearch && IsFile(fs, e.path) && HasTextExtension(e.path) {
        match fs.files[e.path].content {
          case None =>
            matched := false;
          case Some(text) =>
            if !Contains(Lower(text), keyword) {
              matched := false;
            }
        }
      }
      assert matched == Matches(f, e, contentSearch, fs);
      if matched {
        results := results + [e];
      }
      SelectNext(fileList, f, contentSearch, fs, i);
      i := i + 1;
    }
    assert fileList[..|fileList|] == fileList;
  }

  /** `a` is `b` with some elements left out, the rest in their order. */
  predicate IsSubsequence<T(==)>(a: seq<T>, b: seq<T>)
    decreases |b|
  {
    if a == [] then true
    else if b == [] then false
    else if a[|a| - 1] == b[|b| - 1] then IsSubsequence(a[..|a| - 1], b[..|b| - 1])
    else IsSubsequence(a, b[..|b| - 1])
  }

  lemma {:induction false} SubsequenceExtend<T>(a: seq<T>, b: seq<T>, x: T)
    requires IsSubsequence(a, b)
    ensures IsSubsequence(a, b + [x])
    decreases |b|, 1
  {
    assert (b + [x])[..|b|] == b;
    if a != [] && a[|a| - 1] == x {
      SubsequenceDropLast(a, b);
    }
  }

  lemma {:induction false} SubsequenceDropLast<T>(a: seq<T>, b: seq<T>)
    requires a != [] && IsSubsequence(a, b)
    ensures IsSubsequence(a[..|a| - 1], b)
    decreases |b|, 0
  {
    var a', b' := a[..|a| - 1], b[..|b| - 1];
    if a[|a| - 1] == b[|b| - 1] {
      SubsequenceExtend(a', b', b[|b| - 1]);
    } else {
      SubsequenceDropLast(a, b');
      SubsequenceExtend(a', b', b[|b| - 1]);
    }
    assert b' + [b[|b| - 1]] == b;
  }

  /** Filtering keeps entries in their order and adds none. */
  lemma {:induction false} SelectIsSubsequence(entries: seq<Entry>, f: Filters, contentSearch: bool, fs: FileSystem)
    requires f.SizesAreNumerals()
    ensures IsSubsequence(Select(entries, f, contentSearch, fs), entries)
    decreases |entries|
  {
    if entries != [] {
      var init, last := entries[..|entries| - 1], entries[|entries| - 1];
      var s := Select(init, f, contentSearch, fs);
      SelectIsSubsequence(init, f, contentSearch, fs);
      assert init + [last] == entries;
      if Matches(f, last, contentSearch, fs) {
        assert (s + [last])[..|s|] == s;
      } else {
        assert Select(entries, f, contentSearch, fs) == s;
        SubsequenceExtend(s, init, last);
      }
    }
  }

  /** An entry is in the results exactly when it is in the list and matches. */
  lemma {:induction false} SelectMembership(entries: seq<Entry>, f: Filters, contentSearch: bool, fs: FileSystem, e: Entry)
    requires f.SizesAreNumerals()
    ensures e in Select(entries, f, contentSearch, fs) <==> e in entries && Matches(f, e, contentSearch, fs)
    decreases |entries|
  {
    if entries != [] {
      var init := entries[..|entries| - 1];
      SelectMembership(init, f, contentSearch, fs, e);
      assert entries == init + [entries[|entries| - 1]];
    }
  }

  /** No name, extension or size filter, an empty keyword and no content
      search: the file list comes back unchanged. */
  lemma {:induction false} SelectWithoutFilters(entries: seq<Entry>, fs: FileSystem)
    ensures Select(entries, Filters(None, None, None, None, ""), false, fs) == entries
    decreases |entries|
  {
    if entries != [] {
      SelectWithoutFilters(entries[..|entries| - 1], fs);
      assert entries[..|entries| - 1] + [entries[|entries| - 1]] == entries;
    }
  }

  /** Every regular file in the results lies within the size bounds. */
  lemma SelectRespectsSizeBounds(entries: seq<Entry>, f: Filters, contentSearch: bool, fs: FileSystem, e: Entry)
    requires f.SizesAreNumerals()
    requires e in Select(entries, f, contentSearch, fs) && IsFile(fs, e.path)
    ensures f.minSize.Some? ==> fs.files[e.path].size >= NumeralValue(f.minSize.value) * 1024
    ensures f.maxSize.Some? ==> fs.files[e.path].size <= NumeralValue(f.maxSize.value) * 1024
  {
    SelectMembership(entries, f, contentSearch, fs, e);
  }

  /** Size bounds only remove entries: the results with them are a
      subsequence of the results without them. */
  lemma {:induction false} SizeBoundsNarrow(entries: seq<Entry>, f: Filters, contentSearch: bool, fs: FileSystem)
    requires f.SizesAreNumerals()
    ensures IsSubsequence(Select(entries, f, contentSearch, fs),
                          Select(entries, f.(minSize := None, maxSize := None), contentSearch, fs))
    decreases |entries|
  {
    if entries != [] {
      var g := f.(minSize := None, maxSize := None);
      var init, last := entries[..|entries| - 1], entries[|entries| - 1];
      var on, off := Select(init, f, contentSearch, fs), Select(init, g, contentSearch, fs);
      SizeBoundsNarrow(init, f, contentSearch, fs);
      if Matches(f, last, contentSearch, fs) {
        assert (on + [last])[..|on|] == on;
        assert (off + [last])[..|off|] == off;
      } else if Matches(g, last, contentSearch, fs) {
        assert Select(entries, f, contentSearch, fs) == on;
        assert Select(entries, g, contentSearch, fs) == off + [last];
        SubsequenceExtend(on, off, last);
      } else {
        assert Select(entries, f, contentSearch, fs) == on;
        assert Select(entries, g, contentSearch, fs) == off;
      }
    }
  }

  /** Size bounds never decide about an entry that is not a regular file:
      it is a result with them exactly when it is one without them. */
  lemma SizeIgnoresNonFiles(entries: seq<Entry>, f: Filters, contentSearch: bool, fs: FileSystem, e: Entry)
    requires f.SizesAreNumerals() && !IsFile(fs, e.path)
    ensures e in Select(entries, f, contentSearch, fs)
            <==> e in Select(entries, f.(minSize := None, maxSize := None), contentSearch, fs)
  {
    SelectMembership(entries, f, contentSearch, fs, e);
    SelectMembership(entries, f.(minSize := None, maxSize := None), contentSearch, fs, e);
  }

  /** Turning content search on only removes entries. */
  lemma {:induction false} ContentSearchNarrows(entries: seq<Entry>, f: Filters, fs: FileSystem)
    requires f.SizesAreNumerals()
    ensures IsSubsequence(Select(entries, f, true, fs), Select(entries, f, false, fs))
    decreases |entries|
  {
    if entries != [] {
      var init, last := entries[..|entries| - 1], entries[|entries| - 1];
      var on, off := Select(init, f, true, fs), Select(init, f, false, fs);
      ContentSearchNarrows(init, f, fs);
      if Matches(f, last, true, fs) {
        assert (on + [last])[..|on|] == on;
        assert (off + [last])[..|off|] == off;
      } else if Matches(f, last, false, fs) {
        assert Select(entries, f, true, fs) == on;
        assert Select(entries, f, false, fs) == off + [last];
        SubsequenceExtend(on, off, last);
      } else {
        assert Select(entries, f, true, fs) == on;
        assert Select(entries, f, false, fs) == off;
      }
    }
  }

  /** With content search on, a regular text file that cannot be read is
      never in the results. */
  lemma UnreadableFileExcluded(entries: seq<Entry>, f: Filters, fs: FileSystem, e: Entry)
    requires f.SizesAreNumerals()
    requires IsFile(fs, e.path) && HasTextExtension(e.path) && fs.files[e.path].content.None?
    ensures e !in Select(entries, f, true, fs)
  {
    SelectMembership(entries, f, true, fs, e);
  }

  /** With an empty keyword, the content check lets every readable file
      through: when every regular text file in the list can be read, the
      results are those without content search. */
  lemma {:induction false} EmptyKeywordReadsAnything(entries: seq<Entry>, f: Filters, fs: FileSystem)
    requires f.SizesAreNumerals() && f.keyword == []
    requires forall k :: 0 <= k < |entries| ==>
               IsFile(fs, entries[k].path) && HasTextExtension(entries[k].path) ==> fs.files[entries[k].path].content.Some?
    ensures Select(entries, f, true, fs) == Select(entries, f, false, fs)
    decreases |entries|
  {
    if entries != [] {
      var last := entries[|entries| - 1];
      EmptyKeywordReadsAnything(entries[..|entries| - 1], f, fs);
      if IsFile(fs, last.path) && HasTextExtension(last.path) {
        var text := fs.files[last.path].content.value;
        assert OccursAt(Lower(text), Keyword(f), 0);
      }
    }
  }
}
