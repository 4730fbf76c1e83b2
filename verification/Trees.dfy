/** A directory tree as a value, with the path operations the backup and restore
    code performs on it. Symbolic links are not modelled; every other entry that
    is neither a file nor a directory is `Special`. */
module Trees {
  import opened Text

  /** Three permission bits, and the nine bits of `os.FileMode.Perm()`. */
  datatype Bits = Bits(read: bool, write: bool, exec: bool)
  datatype Perm = Perm(owner: Bits, group: Bits, other: Bits)

  const NONE := Bits(false, false, false)
  const RW := Bits(true, true, false)
  const RWX := Bits(true, true, true)
  const R := Bits(true, false, false)
  const RX := Bits(true, false, true)

  const MODE_0700 := Perm(RWX, NONE, NONE)
  const MODE_0600 := Perm(RW, NONE, NONE)
  const MODE_0755 := Perm(RWX, RX, RX)

  /** The mode of directories created only to hold something else. */
  const MKDIR_MODE := MODE_0755

  /** `mode & 0o700` and `mode & 0o600`. */
  function Owner(p: Perm): Perm { Perm(p.owner, NONE, NONE) }
  function OwnerData(p: Perm): Perm { Perm(Bits(p.owner.read, p.owner.write, false), NONE, NONE) }

  /** A directory entry's name: non-empty, without the separator, not a dot name. */
  predicate ValidEntry(s: string) { s != "" && '/' !in s && s != "." && s != ".." }
  type Name = s: string | ValidEntry(s) witness "a"
  type Path = seq<Name>

  type Data = string

  datatype Tree =
    | File(data: Data, perm: Perm)
    | Dir(kids: map<Name, Tree>, perm: Perm)
    | Special

  // ----------------------------------------------------- whole-tree functions

  /** Only files and directories below this point. */
  predicate Plain(t: Tree)
  {
    match t
    case File(_, _) => true
    case Dir(kids, _) => forall n :: n in kids ==> Plain(kids[n])
    case Special => false
  }

  /** What a copy that does not preserve modes leaves: only owner bits. */
  function Masked(t: Tree): Tree
  {
    match t
    case File(d, p) => File(d, OwnerData(p))
    case Dir(kids, p) => Dir(map n | n in kids :: Masked(kids[n]), Owner(p))
    case Special => Special
  }

  /** The tree with every mode forgotten: names and contents only. */
  function Content(t: Tree): Tree
  {
    match t
    case File(d, _) => File(d, MODE_0600)
    case Dir(kids, _) => Dir(map n | n in kids :: Content(kids[n]), MODE_0700)
    case Special => Special
  }

  lemma {:induction false} MaskedKeepsContent(t: Tree)
    ensures Content(Masked(t)) == Content(t)
  {
    match t
    case File(_, _) =>
    case Special =>
    case Dir(kids, p) =>
      forall n | n in kids ensures Content(Masked(kids[n])) == Content(kids[n]) {
        MaskedKeepsContent(kids[n]);
      }
  }

  // ------------------------------------------------------------ path access

  function Lookup(t: Tree, p: Path): Option<Tree>
  {
    if p == [] then Some(t)
    else if t.Dir? && p[0] in t.kids then Lookup(t.kids[p[0]], p[1..])
    else None
  }

  predicate IsDirAt(t: Tree, p: Path) { Lookup(t, p).Some? && Lookup(t, p).value.Dir? }

  /** The helper `fileExists`: something that is not a directory is there. */
  predicate IsFileAt(t: Tree, p: Path) { Lookup(t, p).Some? && !Lookup(t, p).value.Dir? }

  lemma {:induction false} LookupAppend(t: Tree, p: Path, q: Path)
    requires Lookup(t, p).Some?
    ensures Lookup(t, p + q) == Lookup(Lookup(t, p).value, q)
  {
    if p == [] {
      assert p + q == q;
    } else {
      assert (p + q)[1..] == p[1..] + q;
      LookupAppend(t.kids[p[0]], p[1..], q);
    }
  }

  /** No component on the way to `p` is something other than a directory. */
  predicate CanPut(t: Tree, p: Path)
  {
    p == [] || (t.Dir? && (p[0] in t.kids ==> CanPut(t.kids[p[0]], p[1..])))
  }

  /** The directory entry to descend into, made by `os.MkdirAll` when missing. */
  function Child(t: Tree, n: Name): Tree
    requires t.Dir?
  {
    if n in t.kids then t.kids[n] else Dir(map[], MKDIR_MODE)
  }

  /** `x` placed at `p`; missing parents are created. */
  function PutAt(t: Tree, p: Path, x: Tree): Tree
    requires CanPut(t, p)
    decreases p
  {
    if p == [] then x
    else
      var child := Child(t, p[0]);
      Dir(t.kids[p[0] := PutAt(child, p[1..], x)], t.perm)
  }

  /** `os.RemoveAll`. */
  function RemoveAt(t: Tree, p: Path): Tree
    requires p != []
  {
    if !t.Dir? || p[0] !in t.kids then t
    else if |p| == 1 then Dir(t.kids - {p[0]}, t.perm)
    else Dir(t.kids[p[0] := RemoveAt(t.kids[p[0]], p[1..])], t.perm)
  }

  /** Neither path lies on or below the other. */
  predicate Apart(p: Path, q: Path) { !(p <= q) && !(q <= p) }

  lemma {:induction false} PutThenLookup(t: Tree, p: Path, x: Tree)
    requires CanPut(t, p)
    ensures Lookup(PutAt(t, p, x), p) == Some(x)
    decreases p
  {
    if p != [] {
      var child := Child(t, p[0]);
      PutThenLookup(child, p[1..], x);
    }
  }

  lemma {:induction false} PutElsewhere(t: Tree, p: Path, x: Tree, q: Path)
    requires CanPut(t, p) && Apart(p, q)
    ensures Lookup(PutAt(t, p, x), q) == Lookup(t, q)
    decreases p
  {
    var child := Child(t, p[0]);
    if p[0] == q[0] {
      assert Apart(p[1..], q[1..]) by {
        assert p == [p[0]] + p[1..] && q == [q[0]] + q[1..];
      }
      PutElsewhere(child, p[1..], x, q[1..]);
    }
  }

  lemma {:induction false} CanPutAfterPut(t: Tree, p: Path, x: Tree, q: Path)
    requires CanPut(t, p) && (p == q || Apart(p, q))
    ensures CanPut(PutAt(t, p, x), q) <==> CanPut(t, q)
    decreases p
  {
    if p != [] && q != [] {
      var child := Child(t, p[0]);
      if p[0] == q[0] {
        assert p == [p[0]] + p[1..] && q == [q[0]] + q[1..];
        CanPutAfterPut(child, p[1..], x, q[1..]);
      }
    }
  }

  lemma {:induction false} PutPut(t: Tree, p: Path, x: Tree, y: Tree)
    requires CanPut(t, p)
    ensures CanPut(PutAt(t, p, x), p)
    ensures PutAt(PutAt(t, p, x), p, y) == PutAt(t, p, y)
    decreases p
  {
    CanPutAfterPut(t, p, x, p);
    if p != [] {
      var n, rest, child := p[0], p[1..], Child(t, p[0]);
      PutPut(child, rest, x, y);
      var once := PutAt(t, p, x);
      assert once == Dir(t.kids[n := PutAt(child, rest, x)], t.perm);
      assert Child(once, n) == PutAt(child, rest, x);
      assert once.kids[n := PutAt(child, rest, y)] == t.kids[n := PutAt(child, rest, y)];
    }
  }

  lemma {:induction false} PutRemoved(t: Tree, p: Path, y: Tree)
    requires CanPut(t, p) && p != []
    ensures CanPut(RemoveAt(t, p), p)
    ensures PutAt(RemoveAt(t, p), p, y) == PutAt(t, p, y)
  {
    var n, rest, gone := p[0], p[1..], RemoveAt(t, p);
    if n in t.kids {
      if rest == [] {
        assert gone.kids[n := y] == t.kids[n := y];
      } else {
        PutRemoved(t.kids[n], rest, y);
        assert gone == Dir(t.kids[n := RemoveAt(t.kids[n], rest)], t.perm);
        assert gone.kids[n := PutAt(t.kids[n], rest, y)] == t.kids[n := PutAt(t.kids[n], rest, y)];
      }
    }
  }

  /** Puts at paths that are apart commute. */
  lemma {:induction false} PutCommute(t: Tree, p: Path, x: Tree, q: Path, y: Tree)
    requires CanPut(t, p) && CanPut(t, q) && Apart(p, q)
    ensures CanPut(PutAt(t, p, x), q) && CanPut(PutAt(t, q, y), p)
    ensures PutAt(PutAt(t, p, x), q, y) == PutAt(PutAt(t, q, y), p, x)
    decreases p
  {
    CanPutAfterPut(t, p, x, q);
    CanPutAfterPut(t, q, y, p);
    var m, n, a, b := p[0], q[0], p[1..], q[1..];
    assert p == [m] + a && q == [n] + b;
    if m == n {
      PutCommute(Child(t, m), a, x, b, y);
      hide PutAt;
      PutTwiceBelow(t, m, a, x, b, y);
      PutTwiceBelow(t, m, b, y, a, x);
    } else {
      hide PutAt;
      PutTwiceBeside(t, p, x, q, y);
      PutTwiceBeside(t, q, y, p, x);
      var u, v := PutAt(Child(t, m), a, x), PutAt(Child(t, n), b, y);
      assert t.kids[m := u][n := v] == t.kids[n := v][m := u];
    }
  }

  /** Two puts below the same entry act on that entry alone. */
  lemma PutTwiceBelow(t: Tree, n: Name, p: Path, x: Tree, q: Path, y: Tree)
    requires t.Dir? && CanPut(Child(t, n), p) && CanPut(PutAt(Child(t, n), p, x), q)
    requires CanPut(t, [n] + p) && CanPut(PutAt(t, [n] + p, x), [n] + q)
    ensures PutAt(PutAt(t, [n] + p, x), [n] + q, y)
         == Dir(t.kids[n := PutAt(PutAt(Child(t, n), p, x), q, y)], t.perm)
  {
    assert ([n] + p)[1..] == p && ([n] + q)[1..] == q;
    var once := PutAt(t, [n] + p, x);
    assert once == Dir(t.kids[n := PutAt(Child(t, n), p, x)], t.perm);
    var twice := PutAt(PutAt(Child(t, n), p, x), q, y);
    assert once.kids[n := twice] == t.kids[n := twice];
  }

  lemma PutTwiceBeside(t: Tree, p: Path, x: Tree, q: Path, y: Tree)
    requires p != [] && q != [] && p[0] != q[0]
    requires CanPut(t, p) && CanPut(t, q) && CanPut(PutAt(t, p, x), q)
    ensures PutAt(PutAt(t, p, x), q, y)
         == Dir(t.kids[p[0] := PutAt(Child(t, p[0]), p[1..], x)][q[0] := PutAt(Child(t, q[0]), q[1..], y)], t.perm)
  {
    var once := PutAt(t, p, x);
    assert once == Dir(t.kids[p[0] := PutAt(Child(t, p[0]), p[1..], x)], t.perm);
    assert Child(once, q[0]) == Child(t, q[0]);
  }
}
