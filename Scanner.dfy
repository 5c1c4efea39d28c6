/** What a scan of the user's folders produces. `os.walk` visits a directory
    tree top-down: it yields the directory itself with its subdirectory and
    file names, then walks each subdirectory in listing order. For every
    yielded directory the scan appends one entry per file and then one entry
    per subdirectory, each carrying its base name and its joined path. Roots
    that do not exist are skipped. The loop itself is
    `Engine.SearchEngine.ScanFiles`; this module is its specification. */
module Scanner {
  import opened FileSystem

  /** One triple yielded by `os.walk`: the directory path, the subdirectory
      names and the file names. */
  datatype Step = Step(dir: string, dirs: seq<string>, files: seq<string>)

  function Names(cs: seq<Subdir>): (r: seq<string>)
    ensures |r| == |cs| && forall i :: 0 <= i < |cs| ==> r[i] == cs[i].name
  {
    seq(|cs|, i requires 0 <= i < |cs| => cs[i].name)
  }

  /** `os.walk(root)` over the tree `t` found at `root`. */
  function Walk(root: string, t: Tree): seq<Step>
    decreases t
  {
    [Step(root, Names(t.subdirs), t.files)] + WalkAll(root, t.subdirs)
  }

  /** The walks of the subdirectories `cs` of `root`, one after the other. */
  function WalkAll(root: string, cs: seq<Subdir>): seq<Step>
    decreases cs
  {
    if cs == [] then [] else Walk(Join(root, cs[0].name), cs[0].tree) + WalkAll(root, cs[1..])
  }

  /** The number of files and directories strictly below a directory. */
  function Size(t: Tree): nat
    decreases t
  {
    |t.files| + |t.subdirs| + SizeAll(t.subdirs)
  }

  function SizeAll(cs: seq<Subdir>): nat
    decreases cs
  {
    if cs == [] then 0 else Size(cs[0].tree) + SizeAll(cs[1..])
  }

  /** The entries for `names` listed in directory `dir`. */
  function EntriesOf(dir: string, names: seq<string>): (r: seq<Entry>)
    ensures |r| == |names|
    ensures forall i :: 0 <= i < |names| ==> r[i] == Entry(names[i], Join(dir, names[i]))
  {
    seq(|names|, i requires 0 <= i < |names| => Entry(names[i], Join(dir, names[i])))
  }

  /** Listing one more name appends its entry. */
  lemma EntriesOfNext(dir: string, names: seq<string>, i: nat)
    requires i < |names|
    ensures EntriesOf(dir, names[..i + 1]) == EntriesOf(dir, names[..i]) + [Entry(names[i], Join(dir, names[i]))]
  {
  }

  /** The entries appended for one walked directory: files first. */
  function StepEntries(s: Step): seq<Entry> {
    EntriesOf(s.dir, s.files) + EntriesOf(s.dir, s.dirs)
  }

  /** The entries `f` gives for each element of `xs`, one after the other. */
  function ConcatMap<T>(xs: seq<T>, f: T -> seq<Entry>): seq<Entry> {
    if xs == [] then [] else ConcatMap(xs[..|xs| - 1], f) + f(xs[|xs| - 1])
  }

  lemma {:induction false} ConcatMapAppend<T>(a: seq<T>, b: seq<T>, f: T -> seq<Entry>)
    ensures ConcatMap(a + b, f) == ConcatMap(a, f) + ConcatMap(b, f)
    decreases |b|
  {
    if b == [] {
      assert a + b == a;
    } else {
      var b', x := b[..|b| - 1], b[|b| - 1];
      assert (a + b)[..|a + b| - 1] == a + b';
      assert (a + b)[|a + b| - 1] == x;
      ConcatMapAppend(a, b', f);
    }
  }

  /** The entries appended for a sequence of walked directories. */
  function StepsEntries(steps: seq<Step>): seq<Entry> {
    ConcatMap(steps, StepEntries)
  }

  /** Walking one more directory appends its entries. */
  lemma StepsEntriesNext(steps: seq<Step>, k: nat)
    requires k < |steps|
    ensures StepsEntries(steps[..k + 1]) == StepsEntries(steps[..k]) + StepEntries(steps[k])
  {
    assert steps[..k + 1][..k] == steps[..k];
  }

  /** What `os.walk` yields for a path that exists: nothing unless it is a
      directory. */
  function WalkOf(fs: FileSystem, root: string): seq<Step> {
    if IsDir(fs, root) then Walk(root, fs.dirs[root]) else []
  }

  /** The entries contributed by one root of the scan. */
  function RootEntries(fs: FileSystem, root: string): seq<Entry> {
    if Exists(fs, root) then StepsEntries(WalkOf(fs, root)) else []
  }

  /** The file list a scan of `roots` builds. */
  function Scan(roots: seq<string>, fs: FileSystem): seq<Entry> {
    if roots == [] then [] else Scan(roots[..|roots| - 1], fs) + RootEntries(fs, roots[|roots| - 1])
  }

  lemma StepsEntriesAppend(a: seq<Step>, b: seq<Step>)
    ensures StepsEntries(a + b) == StepsEntries(a) + StepsEntries(b)
  {
    ConcatMapAppend(a, b, StepEntries);
  }

  /** Roots are scanned in order: scanning `a + b` is scanning `a`, then `b`. */
  lemma {:induction false} ScanAppend(a: seq<string>, b: seq<string>, fs: FileSystem)
    ensures Scan(a + b, fs) == Scan(a, fs) + Scan(b, fs)
    decreases |b|
  {
    if b == [] {
      assert a + b == a;
    } else {
      var b' := b[..|b| - 1];
      assert (a + b)[..|a + b| - 1] == a + b';
      assert Scan(a + b, fs) == Scan(a + b', fs) + RootEntries(fs, b[|b| - 1]);
      ScanAppend(a, b', fs);
    }
  }

  /** A root that does not exist contributes no entries, wherever it stands. */
  lemma MissingRootContributesNothing(a: seq<string>, root: string, b: seq<string>, fs: FileSystem)
    requires !Exists(fs, root)
    ensures Scan(a + [root] + b, fs) == Scan(a + b, fs)
  {
    assert Scan([root], fs) == [] by {
      assert Scan([root], fs) == Scan([], fs) + RootEntries(fs, root);
    }
    ScanAppend(a, [root], fs);
    ScanAppend(a + [root], b, fs);
    ScanAppend(a, b, fs);
  }

  /** The walk of a tree yields one entry per file and per directory below it. */
  lemma {:induction false} WalkCount(root: string, t: Tree)
    ensures |StepsEntries(Walk(root, t))| == Size(t)
    decreases t
  {
    var s := Step(root, Names(t.subdirs), t.files);
    StepsEntriesAppend([s], WalkAll(root, t.subdirs));
    StepsEntriesNext([s], 0);
    assert [s][..1] == [s] && [s][..0] == [];
    assert StepsEntries([s]) == StepEntries(s);
    WalkAllCount(root, t.subdirs);
  }

  lemma {:induction false} WalkAllCount(root: string, cs: seq<Subdir>)
    ensures |StepsEntries(WalkAll(root, cs))| == SizeAll(cs)
    decreases cs
  {
    if cs != [] {
      var w := Walk(Join(root, cs[0].name), cs[0].tree);
      StepsEntriesAppend(w, WalkAll(root, cs[1..]));
      WalkCount(Join(root, cs[0].name), cs[0].tree);
      WalkAllCount(root, cs[1..]);
    }
  }

  /** The scan holds, for each existing directory root, as many entries as
      there are files and directories below it. */
  function Total(roots: seq<string>, fs: FileSystem): nat {
    if roots == [] then 0
    else Total(roots[..|roots| - 1], fs)
         + (if IsDir(fs, roots[|roots| - 1]) then Size(fs.dirs[roots[|roots| - 1]]) else 0)
  }

  lemma {:induction false} ScanCount(roots: seq<string>, fs: FileSystem)
    ensures |Scan(roots, fs)| == Total(roots, fs)
    decreases |roots|
  {
    if roots != [] {
      var r := roots[|roots| - 1];
      ScanCount(roots[..|roots| - 1], fs);
      if IsDir(fs, r) {
        WalkCount(r, fs.dirs[r]);
      }
    }
  }

  /** Entry `e` was listed by the walked directory `s`, as a file or as a
      subdirectory, and its path is its name joined to that directory. */
  predicate ListedIn(e: Entry, s: Step) {
    (e.name in s.files || e.name in s.dirs) && e.path == Join(s.dir, e.name)
  }

  lemma StepEntryListed(s: Step, k: nat)
    requires k < |StepEntries(s)|
    ensures ListedIn(StepEntries(s)[k], s)
  {
    if k < |s.files| {
      assert StepEntries(s)[k] == EntriesOf(s.dir, s.files)[k];
    } else {
      assert StepEntries(s)[k] == EntriesOf(s.dir, s.dirs)[k - |s.files|];
    }
  }

  /** Each entry of a walk was listed, under its name and at its joined
      path, by one of the walked directories, which `w` indexes. */
  lemma {:induction false} EntriesAreJoined(steps: seq<Step>, i: nat) returns (w: nat)
    requires i < |StepsEntries(steps)|
    ensures w < |steps| && ListedIn(StepsEntries(steps)[i], steps[w])
    decreases |steps|
  {
    var init := steps[..|steps| - 1];
    var last := steps[|steps| - 1];
    assert StepsEntries(steps) == StepsEntries(init) + StepEntries(last);
    if i < |StepsEntries(init)| {
      w := EntriesAreJoined(init, i);
      assert steps[w] == init[w];
    } else {
      StepEntryListed(last, i - |StepsEntries(init)|);
      w := |steps| - 1;
    }
  }
}
