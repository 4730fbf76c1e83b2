/** The canonical file list of a backup directory. */
module Listing {
  import opened Text
  import opened Trees
  import opened Paths

  datatype ManifestFile = ManifestFile(path: string, size: nat, sha256: string)

  const MANIFEST: Name := "manifest.json"

  /** The regular file at `p` that a list must mention: any not named `manifest.json`. */
  function FileAt(t: Tree, p: Path): Option<Data>
  {
    if p != [] && p[|p| - 1] != MANIFEST && Lookup(t, p).Some? && Lookup(t, p).value.File?
    then Some(Lookup(t, p).value.data)
    else None
  }

  /** How a list is written: formats before version 4 also record a content hash. */
  datatype Style = Style(hash: Data -> string, checksummed: bool)

  function Entry(style: Style, p: Path, d: Data): ManifestFile
  {
    ManifestFile(Join(p, '/'), |d|, if style.checksummed then style.hash(d) else "")
  }

  /** The walk meets no entry it refuses. */
  predicate Listable(t: Tree)
    decreases t, 0
  {
    t.Dir? && forall n :: n in t.kids ==> EntryListable(t.kids[n], n)
  }

  predicate EntryListable(kid: Tree, n: Name)
    decreases kid, 1
  {
    match kid
    case Dir(_, _) => Listable(kid)
    case File(_, _) => true
    case Special => n == MANIFEST
  }

  predicate NoDuplicates(paths: seq<Path>)
  {
    forall i, j :: 0 <= i < j < |paths| ==> paths[i] != paths[j]
  }

  /** `files[i]` describes the file at `paths[i]`, named relative to `prefix`. */
  predicate Matches(style: Style, prefix: Path, t: Tree, files: seq<ManifestFile>, paths: seq<Path>)
  {
    |files| == |paths| && forall i :: 0 <= i < |paths| ==>
      FileAt(t, paths[i]).Some? && files[i] == Entry(style, prefix + paths[i], FileAt(t, paths[i]).value)
  }

  /** `paths` names every listed file of `t` whose first component is in `among`, once. */
  ghost predicate Covers(t: Tree, among: set<string>, paths: seq<Path>)
  {
    NoDuplicates(paths) && forall p :: p in paths <==> FileAt(t, p).Some? && p[0] in among
  }

  ghost predicate Describes(style: Style, t: Tree, files: seq<ManifestFile>, paths: seq<Path>)
  {
    Matches(style, [], t, files, paths) && NoDuplicates(paths) && forall p :: p in paths <==> FileAt(t, p).Some?
  }

  predicate SortedByPath(files: seq<ManifestFile>)
  {
    forall i, j :: 0 <= i < j < |files| ==> Less(files[i].path, files[j].path)
  }

  /** `files` is the list of `t`: every listed file once, in path order. */
  ghost predicate IsListOf(style: Style, t: Tree, files: seq<ManifestFile>)
  {
    SortedByPath(files) && exists paths :: Describes(style, t, files, paths)
  }

  /** What a list reveals about one path. */
  function View(style: Style, t: Tree, p: Path): Option<(nat, string)>
  {
    match FileAt(t, p)
    case None => None
    case Some(d) => Some((|d|, if style.checksummed then style.hash(d) else ""))
  }

  // ------------------------------------------------------------- the walk

  /** `filepath.WalkDir` below `prefix`; the ghost result names the files relative to it. */
  method Walk(style: Style, t: Tree, prefix: Path)
    returns (ok: bool, files: seq<ManifestFile>, ghost paths: seq<Path>)
    requires t.Dir?
    ensures ok <==> Listable(t)
    ensures ok ==> Matches(style, prefix, t, files, paths) && Covers(t, t.kids.Keys, paths)
    decreases t, 1
  {
    hide FileAt, Matches, Covers;
    NothingCovered(style, prefix, t);
    files, paths := [], [];
    var names := SortedNames(t.kids.Keys);
    SortedIsDistinct(names);
    var k := 0;
    ghost var among: set<string> := {};
    while k < |names|
      invariant 0 <= k <= |names|
      invariant forall n :: n in among <==> n in names[..k]
      invariant forall n :: n in among ==> n in t.kids && EntryListable(t.kids[n], n)
      invariant Matches(style, prefix, t, files, paths) && Covers(t, among, paths)
    {
      assert names[k] in names;
      assert names[..k + 1] == names[..k] + [names[k]];
      var n: Name := names[k];
      ghost var below;
      var fine, more;
      fine, more, below := WalkEntry(style, t, n, prefix);
      if !fine {
        return false, [], [];
      }
      CoverMore(style, prefix, t, among, n, files, paths, more, below);
      files, paths, among := files + more, paths + below, among + {n};
      k := k + 1;
    }
    assert names[..|names|] == names;
    assert among == t.kids.Keys;
    ok := true;
  }

  lemma NothingCovered(style: Style, prefix: Path, t: Tree)
    ensures Matches(style, prefix, t, [], []) && Covers(t, {}, [])
  {
  }

  /** One step of the walk: the entry `n` of `t`. */
  method WalkEntry(style: Style, t: Tree, n: Name, prefix: Path)
    returns (ok: bool, files: seq<ManifestFile>, ghost paths: seq<Path>)
    requires t.Dir? && n in t.kids
    ensures ok <==> EntryListable(t.kids[n], n)
    ensures ok ==> Matches(style, prefix, t, files, paths) && Covers(t, {n}, paths)
    decreases t, 0
  {
    var kid := t.kids[n];
    if kid.Dir? {
      ghost var below;
      ok, files, below := Walk(style, kid, prefix + [n]);
      paths := seq(|below|, i requires 0 <= i < |below| => [n] + below[i]);
      if ok {
        Nest(style, prefix, t, n, files, below, paths);
      }
      return;
    }
    forall p | FileAt(t, p).Some? && p[0] == n ensures p == [n] && kid.File? && n != MANIFEST {
      FileBelow(t, n, p[1..]);
      assert p == [n] + p[1..];
    }
    FileBelow(t, n, []);
    assert [n] + [] == [n];
    if n == MANIFEST {
      ok, files, paths := true, [], [];
    } else if kid.File? {
      ok, files, paths := true, [Entry(style, prefix + [n], kid.data)], [[n]];
    } else {
      ok, files, paths := false, [], [];
    }
  }

  lemma FileBelow(t: Tree, n: Name, q: Path)
    requires t.Dir? && n in t.kids
    ensures q != [] ==> FileAt(t, [n] + q) == FileAt(t.kids[n], q)
    ensures q == [] ==> FileAt(t, [n] + q) == if t.kids[n].File? && n != MANIFEST then Some(t.kids[n].data) else None
  {
    assert ([n] + q)[1..] == q;
    assert Lookup(t, [n] + q) == Lookup(t.kids[n], q);
  }

  lemma Nest(style: Style, prefix: Path, t: Tree, n: Name, files: seq<ManifestFile>, below: seq<Path>, paths: seq<Path>)
    requires t.Dir? && n in t.kids && t.kids[n].Dir?
    requires Matches(style, prefix + [n], t.kids[n], files, below) && Covers(t.kids[n], t.kids[n].kids.Keys, below)
    requires |paths| == |below| && forall i :: 0 <= i < |below| ==> paths[i] == [n] + below[i]
    ensures Matches(style, prefix, t, files, paths) && Covers(t, {n}, paths)
  {
    forall i | 0 <= i < |paths|
      ensures FileAt(t, paths[i]).Some? && files[i] == Entry(style, prefix + paths[i], FileAt(t, paths[i]).value)
    {
      FileBelow(t, n, below[i]);
      assert prefix + [n] + below[i] == prefix + paths[i];
    }
    forall i, j | 0 <= i < j < |paths| ensures paths[i] != paths[j] {
      assert paths[i][1..] == below[i] && paths[j][1..] == below[j];
    }
    forall p ensures p in paths <==> FileAt(t, p).Some? && p[0] in {n} {
      NestMember(t, n, below, paths, p);
    }
  }

  lemma NestMember(t: Tree, n: Name, below: seq<Path>, paths: seq<Path>, p: Path)
    requires t.Dir? && n in t.kids && t.kids[n].Dir?
    requires forall q :: q in below <==> FileAt(t.kids[n], q).Some? && q[0] in t.kids[n].kids.Keys
    requires |paths| == |below| && forall i :: 0 <= i < |below| ==> paths[i] == [n] + below[i]
    ensures p in paths <==> FileAt(t, p).Some? && p[0] in {n}
  {
    if p in paths {
      var i :| 0 <= i < |paths| && paths[i] == p;
      assert below[i] in below;
      FileBelow(t, n, below[i]);
    }
    if FileAt(t, p).Some? && p[0] == n {
      FileBelow(t, n, p[1..]);
      assert p == [n] + p[1..];
      assert p[1..] in below;
      var i :| 0 <= i < |below| && below[i] == p[1..];
      assert paths[i] == p;
    }
  }

  lemma CoverMore(style: Style, prefix: Path, t: Tree, among: set<string>, n: Name,
                  files: seq<ManifestFile>, paths: seq<Path>, more: seq<ManifestFile>, below: seq<Path>)
    requires n !in among
    requires Matches(style, prefix, t, files, paths) && Covers(t, among, paths)
    requires Matches(style, prefix, t, more, below) && Covers(t, {n}, below)
    ensures Matches(style, prefix, t, files + more, paths + below) && Covers(t, among + {n}, paths + below)
  {
    hide FileAt;
    forall i, j | 0 <= i < |paths| && 0 <= j < |below| ensures paths[i] != below[j] {
      assert paths[i] in paths && below[j] in below;
    }
  }

  // ---------------------------------------------------------- sort and build

  method InsertFile(files: seq<ManifestFile>, f: ManifestFile) returns (out: seq<ManifestFile>, ghost at: nat)
    requires SortedByPath(files)
    requires forall i :: 0 <= i < |files| ==> files[i].path != f.path
    ensures SortedByPath(out)
    ensures at <= |files| && out == files[..at] + [f] + files[at..]
  {
    var i := 0;
    while i < |files| && Less(files[i].path, f.path)
      invariant 0 <= i <= |files|
      invariant forall k :: 0 <= k < i ==> Less(files[k].path, f.path)
    {
      i := i + 1;
    }
    forall k | i <= k < |files| ensures Less(f.path, files[k].path) {
      LessTotal(f.path, files[i].path);
      if i < k {
        LessTransitive(f.path, files[i].path, files[k].path);
      }
    }
    out, at := files[..i] + [f] + files[i..], i;
  }

  /** `files` is a sorted list of the files at the first `k` of `paths`. */
  ghost predicate SortedSoFar(style: Style, t: Tree, paths: seq<Path>, k: nat, files: seq<ManifestFile>,
                              placed: seq<Path>)
    requires k <= |paths|
  {
    && SortedByPath(files)
    && Matches(style, [], t, files, placed)
    && NoDuplicates(placed)
    && forall p :: p in placed <==> p in paths[..k]
  }

  /** `sort.Slice` by path, on a list whose paths are all different. */
  method SortFiles(style: Style, t: Tree, found: seq<ManifestFile>, ghost paths: seq<Path>)
    returns (files: seq<ManifestFile>)
    requires Describes(style, t, found, paths)
    ensures IsListOf(style, t, files)
  {
    files := [];
    ghost var placed: seq<Path> := [];
    var k := 0;
    while k < |found|
      invariant 0 <= k <= |found|
      invariant SortedSoFar(style, t, paths, k, files, placed)
    {
      NewPath(style, t, found, paths, files, placed, k);
      ghost var at;
      ghost var before := files;
      files, at := InsertFile(files, found[k]);
      PlacedNext(style, t, found, paths, before, placed, k, files, at);
      placed := placed[..at] + [paths[k]] + placed[at..];
      k := k + 1;
    }
    assert paths[..|paths|] == paths;
    assert Describes(style, t, files, placed);
  }

  lemma PlacedNext(style: Style, t: Tree, found: seq<ManifestFile>, paths: seq<Path>,
                   before: seq<ManifestFile>, placed: seq<Path>, k: nat, after: seq<ManifestFile>, at: nat)
    requires Describes(style, t, found, paths) && k < |found|
    requires SortedSoFar(style, t, paths, k, before, placed) && paths[k] !in placed
    requires at <= |before| && after == before[..at] + [found[k]] + before[at..] && SortedByPath(after)
    ensures SortedSoFar(style, t, paths, k + 1, after, placed[..at] + [paths[k]] + placed[at..])
  {
    var next := placed[..at] + [paths[k]] + placed[at..];
    assert placed == placed[..at] + placed[at..];
    forall i | 0 <= i < |next|
      ensures FileAt(t, next[i]).Some? && after[i] == Entry(style, [] + next[i], FileAt(t, next[i]).value)
    {
      var from := if i < at then i else i - 1;
      assert i != at ==> next[i] == placed[from] && after[i] == before[from];
    }
    assert paths[..k + 1] == paths[..k] + [paths[k]];
    forall p ensures p in next <==> p in paths[..k + 1] {
      assert p in next <==> p in placed || p == paths[k];
    }
    InsertedDistinct(placed, at, paths[k]);
  }

  lemma InsertedDistinct(placed: seq<Path>, at: nat, p: Path)
    requires NoDuplicates(placed) && p !in placed && at <= |placed|
    ensures NoDuplicates(placed[..at] + [p] + placed[at..])
  {
    var next := placed[..at] + [p] + placed[at..];
    forall i, j | 0 <= i < j < |next| ensures next[i] != next[j] {
      var fi, fj := if i < at then i else i - 1, if j < at then j else j - 1;
      assert i != at ==> next[i] == placed[fi] && next[i] in placed;
      assert j != at ==> next[j] == placed[fj] && next[j] in placed;
    }
  }

  lemma NewPath(style: Style, t: Tree, found: seq<ManifestFile>, paths: seq<Path>, files: seq<ManifestFile>,
                placed: seq<Path>, k: nat)
    requires Describes(style, t, found, paths) && k < |found|
    requires Matches(style, [], t, files, placed)
    requires forall p :: p in placed <==> p in paths[..k]
    ensures paths[k] !in placed
    ensures forall i :: 0 <= i < |files| ==> files[i].path != found[k].path
  {
    forall i | 0 <= i < |files| ensures files[i].path != found[k].path {
      assert placed[i] in placed;
      assert [] + placed[i] == placed[i] && [] + paths[k] == paths[k];
      if files[i].path == found[k].path {
        JoinInjective(placed[i], paths[k]);
      }
    }
  }

  /** `buildManifestFiles`: walk, then sort by path. */
  method BuildManifestFiles(style: Style, t: Tree) returns (ok: bool, files: seq<ManifestFile>)
    requires t.Dir?
    ensures ok <==> Listable(t)
    ensures ok ==> IsListOf(style, t, files)
  {
    var found;
    ghost var paths;
    ok, found, paths := Walk(style, t, []);
    files := [];
    if ok {
      forall p | FileAt(t, p).Some? ensures p[0] in t.kids.Keys { }
      files := SortFiles(style, t, found, paths);
    }
  }

  // ------------------------------------------------------------- canonicity

  lemma FilesOnce(style: Style, t: Tree, files: seq<ManifestFile>, paths: seq<Path>, f: ManifestFile)
    requires Describes(style, t, files, paths)
    ensures f in files <==> exists p :: FileAt(t, p).Some? && f == Entry(style, p, FileAt(t, p).value)
  {
    forall i | 0 <= i < |paths| ensures [] + paths[i] == paths[i] { }
    if f in files {
      var i :| 0 <= i < |files| && files[i] == f;
      assert FileAt(t, paths[i]).Some?;
    }
    if p :| FileAt(t, p).Some? && f == Entry(style, p, FileAt(t, p).value) {
      assert p in paths;
      var i :| 0 <= i < |paths| && paths[i] == p;
      assert files[i] == f;
    }
  }

  lemma {:induction false} SortedFilesUnique(a: seq<ManifestFile>, b: seq<ManifestFile>)
    requires SortedByPath(a) && SortedByPath(b)
    requires forall f :: f in a <==> f in b
    ensures a == b
  {
    if a != [] && b != [] {
      assert a[0] in b && b[0] in a;
      assert a[0] == b[0] by {
        if a[0] != b[0] {
          LessTransitive(a[0].path, b[0].path, a[0].path);
          LessIrreflexive(a[0].path);
        }
      }
      TailMembers(a);
      TailMembers(b);
      SortedFilesUnique(a[1..], b[1..]);
      assert a == [a[0]] + a[1..] && b == [b[0]] + b[1..];
    } else {
      FileOrEmpty(a);
      FileOrEmpty(b);
    }
  }

  lemma TailMembers(a: seq<ManifestFile>)
    requires SortedByPath(a) && a != []
    ensures forall f :: f in a[1..] <==> f in a && f != a[0]
  {
    LessIrreflexive(a[0].path);
    assert a == [a[0]] + a[1..];
  }

  lemma FileOrEmpty(a: seq<ManifestFile>)
    ensures a == [] || exists f :: f in a
  {
    if a != [] {
      assert a[0] in a;
    }
  }

  /** The list is canonical: the lists of two directories are equal exactly when
      the directories have the same files of the same sizes (and hashes, where
      recorded), entries named `manifest.json` aside. */
  lemma ListsEqualExactly(style: Style, t: Tree, u: Tree, a: seq<ManifestFile>, b: seq<ManifestFile>)
    requires IsListOf(style, t, a) && IsListOf(style, u, b)
    ensures a == b <==> forall p :: View(style, t, p) == View(style, u, p)
  {
    var pa :| Describes(style, t, a, pa);
    var pb :| Describes(style, u, b, pb);
    if a == b {
      forall p ensures View(style, t, p) == View(style, u, p) {
        SameView(style, t, u, a, pa, pb, p);
        SameView(style, u, t, a, pb, pa, p);
      }
    }
    if forall p :: View(style, t, p) == View(style, u, p) {
      forall f ensures f in a <==> f in b {
        SameEntries(style, t, u, a, b, pa, pb, f);
        SameEntries(style, u, t, b, a, pb, pa, f);
      }
      SortedFilesUnique(a, b);
    }
  }

  /** A list of one directory is a list of every directory that looks the same. */
  lemma SameViewsSameList(style: Style, t: Tree, u: Tree, files: seq<ManifestFile>)
    requires IsListOf(style, t, files)
    requires forall p :: View(style, u, p) == View(style, t, p)
    ensures IsListOf(style, u, files)
  {
    var paths :| Describes(style, t, files, paths);
    forall p ensures p in paths <==> FileAt(u, p).Some? {
      assert View(style, u, p) == View(style, t, p);
    }
    forall i | 0 <= i < |paths|
      ensures FileAt(u, paths[i]).Some? && files[i] == Entry(style, [] + paths[i], FileAt(u, paths[i]).value)
    {
      assert View(style, u, paths[i]) == View(style, t, paths[i]);
    }
    assert Describes(style, u, files, paths);
  }

  lemma SameView(style: Style, t: Tree, u: Tree, a: seq<ManifestFile>, pa: seq<Path>, pb: seq<Path>, p: Path)
    requires Describes(style, t, a, pa) && Describes(style, u, a, pb)
    ensures FileAt(t, p).Some? ==> View(style, t, p) == View(style, u, p)
  {
    if FileAt(t, p).Some? {
      assert p in pa;
      var i :| 0 <= i < |pa| && pa[i] == p;
      assert [] + pa[i] == pa[i] && [] + pb[i] == pb[i];
      JoinInjective(pa[i], pb[i]);
    }
  }

  lemma SameEntries(style: Style, t: Tree, u: Tree, a: seq<ManifestFile>, b: seq<ManifestFile>,
                    pa: seq<Path>, pb: seq<Path>, f: ManifestFile)
    requires Describes(style, t, a, pa) && Describes(style, u, b, pb)
    requires forall p :: View(style, t, p) == View(style, u, p)
    ensures f in a ==> f in b
  {
    if f in a {
      FilesOnce(style, t, a, pa, f);
      FilesOnce(style, u, b, pb, f);
      var p :| FileAt(t, p).Some? && f == Entry(style, p, FileAt(t, p).value);
      assert View(style, t, p) == View(style, u, p);
      assert f == Entry(style, p, FileAt(u, p).value);
    }
  }
}
