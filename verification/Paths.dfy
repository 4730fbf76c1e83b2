/** The parts of `path/filepath` that the manifest checks rely on. */
module Paths {
  import opened Text
  import opened Trees

  predicate IsAbs(p: string) { p != "" && p[0] == '/' }

  /** One pass over the components: dots go, a dot-dot takes its predecessor. */
  function Fold(parts: seq<string>, acc: seq<string>, rooted: bool): seq<string>
    decreases |parts|
  {
    if parts == [] then acc
    else
      var part := parts[0];
      if part == "" || part == "." then Fold(parts[1..], acc, rooted)
      else if part != ".." then Fold(parts[1..], acc + [part], rooted)
      else if acc != [] && acc[|acc| - 1] != ".." then Fold(parts[1..], acc[..|acc| - 1], rooted)
      else if rooted then Fold(parts[1..], acc, rooted)
      else Fold(parts[1..], acc + [".."], rooted)
  }

  /** `filepath.Clean` */
  function Clean(p: string): string
  {
    if p == "" then "."
    else
      var joined := Join(Fold(Split(p, '/'), [], IsAbs(p)), '/');
      if IsAbs(p) then "/" + joined
      else if joined == "" then "."
      else joined
  }

  function TrimRight(s: string, c: char): (r: string)
    ensures r <= s
    ensures r == "" || r[|r| - 1] != c
  {
    if s != "" && s[|s| - 1] == c then TrimRight(s[..|s| - 1], c) else s
  }

  /** `filepath.Base` */
  function Base(p: string): string
  {
    if p == "" then "."
    else
      var s := TrimRight(p, '/');
      if s == "" then "/"
      else
        var parts := Split(s, '/');
        parts[|parts| - 1]
  }

  /** A relative path made of ordinary names is already clean. */
  lemma NamesAreClean(p: Path)
    requires p != []
    ensures Clean(Join(p, '/')) == Join(p, '/')
    ensures !IsAbs(Join(p, '/')) && Join(p, '/') != ""
  {
    var s := Join(p, '/');
    NamesSplit(p);
    assert s != "" && s[0] == p[0][0] by {
      assert p[0] != "";
    }
    assert p[0][0] != '/';
    FoldNames(p, []);
    assert [] + p == p;
    assert Fold(Split(s, '/'), [], IsAbs(s)) == p;
  }

  lemma NamesSplit(p: Path)
    requires p != []
    ensures Split(Join(p, '/'), '/') == p
  {
    forall n | n in p ensures '/' !in n {
      var name: Name := n;
    }
    SplitJoin(p, '/');
  }

  lemma {:induction false} FoldNames(p: Path, acc: seq<string>)
    ensures Fold(p, acc, false) == acc + p
    decreases |p|
  {
    if p != [] {
      FoldNames(p[1..], acc + [p[0]]);
      assert acc + [p[0]] + p[1..] == acc + p;
    } else {
      assert acc + p == acc;
    }
  }

  /** Different name paths are written differently. */
  lemma JoinInjective(p: Path, q: Path)
    requires p != [] && q != [] && Join(p, '/') == Join(q, '/')
    ensures p == q
  {
    NamesSplit(p);
    NamesSplit(q);
  }

  /** A name without a separator is its own base name. */
  lemma NameIsBase(s: string)
    requires s != "" && '/' !in s
    ensures Base(s) == s
  {
    SplitPiece(s, "", '/');
    assert s[|s| - 1] in s;
  }

  function {:tailrecursion false} ToPath(parts: seq<string>): Option<Path>
  {
    if parts == [] then Some([])
    else if !ValidEntry(parts[0]) then None
    else
      var rest := ToPath(parts[1..]);
      if rest.None? then None else Some([parts[0]] + rest.value)
  }

  lemma {:induction false} ToPathOfNames(p: Path)
    ensures ToPath(p) == Some(p)
    decreases |p|
  {
    if p != [] {
      ToPathOfNames(p[1..]);
      assert p == [p[0]] + p[1..];
    }
  }

  /** `os.Stat` below a directory for a clean relative path. */
  function Stat(t: Tree, p: string): Option<Tree>
  {
    if p == "." then Some(t)
    else
      var path := ToPath(Split(p, '/'));
      if path.None? then None else Lookup(t, path.value)
  }

  lemma StatOfNames(t: Tree, p: Path)
    requires p != []
    ensures Stat(t, Join(p, '/')) == Lookup(t, p)
  {
    NamesSplit(p);
    ToPathOfNames(p);
    SplitPiece(".", "", '/');
    assert p[0] != ".";
    assert Join(p, '/') != ".";
  }
}
