/** Replacing several subtrees, one after the other, at paths none of which lies
    on or below another: the shape of everything a restore does to the disk. */
module Edits {
  import opened Text
  import opened Trees

  datatype Edit = Edit(path: Path, sub: Tree)

  const EMPTY_DIR := Dir(map[], MKDIR_MODE)

  predicate AllApart(edits: seq<Edit>)
  {
    && (forall i :: 0 <= i < |edits| ==> edits[i].path != [])
    && forall i, j :: 0 <= i < j < |edits| ==> Apart(edits[i].path, edits[j].path)
  }

  predicate Applicable(t: Tree, edits: seq<Edit>)
  {
    forall i :: 0 <= i < |edits| ==> CanPut(t, edits[i].path)
  }

  /** A replacement that has no effect where a parent is not a directory. */
  function PutIf(t: Tree, p: Path, x: Tree): Tree
  {
    if CanPut(t, p) then PutAt(t, p, x) else t
  }

  function Apply(t: Tree, edits: seq<Edit>): Tree
  {
    if edits == [] then t
    else
      var last := edits[|edits| - 1];
      PutIf(Apply(t, edits[..|edits| - 1]), last.path, last.sub)
  }

  /** `q` is the place of an edit or has nothing to do with any of them. */
  predicate Aside(edits: seq<Edit>, q: Path)
  {
    forall i :: 0 <= i < |edits| ==> Apart(edits[i].path, q)
  }

  lemma {:induction false} ApplyKeepsRoom(t: Tree, edits: seq<Edit>, q: Path)
    requires forall i :: 0 <= i < |edits| ==> edits[i].path == q || Apart(edits[i].path, q)
    ensures CanPut(Apply(t, edits), q) <==> CanPut(t, q)
  {
    if edits != [] {
      var n := |edits| - 1;
      ApplyKeepsRoom(t, edits[..n], q);
      var u := Apply(t, edits[..n]);
      if CanPut(u, edits[n].path) {
        CanPutAfterPut(u, edits[n].path, edits[n].sub, q);
      }
    }
  }

  /** Frame: whatever lies apart from every edited path is found as before. */
  lemma {:induction false} ApplyElsewhere(t: Tree, edits: seq<Edit>, q: Path)
    requires Aside(edits, q)
    ensures Lookup(Apply(t, edits), q) == Lookup(t, q)
  {
    if edits != [] {
      var n := |edits| - 1;
      ApplyElsewhere(t, edits[..n], q);
      var u := Apply(t, edits[..n]);
      if CanPut(u, edits[n].path) {
        PutElsewhere(u, edits[n].path, edits[n].sub, q);
      }
    }
  }

  /** Effect: every edited path holds its new subtree, whatever came later. */
  lemma {:induction false} ApplyLookup(t: Tree, edits: seq<Edit>, i: nat)
    requires i < |edits| && AllApart(edits) && Applicable(t, edits)
    ensures Lookup(Apply(t, edits), edits[i].path) == Some(edits[i].sub)
  {
    var n := |edits| - 1;
    var u := Apply(t, edits[..n]);
    ApplyKeepsRoom(t, edits[..n], edits[n].path);
    if i == n {
      PutThenLookup(u, edits[n].path, edits[n].sub);
    } else {
      ApplyLookup(t, edits[..n], i);
      assert edits[..n][i] == edits[i];
      PutElsewhere(u, edits[n].path, edits[n].sub, edits[i].path);
    }
  }

  lemma {:induction false} ApplyCommute(t: Tree, edits: seq<Edit>, p: Path, x: Tree)
    requires Aside(edits, p) && CanPut(t, p)
    requires AllApart(edits) && Applicable(t, edits)
    ensures CanPut(Apply(t, edits), p)
    ensures Apply(PutAt(t, p, x), edits) == PutAt(Apply(t, edits), p, x)
  {
    ApplyKeepsRoom(t, edits, p);
    if edits != [] {
      var n := |edits| - 1;
      var q, y := edits[n].path, edits[n].sub;
      ApplyCommute(t, edits[..n], p, x);
      var u := Apply(t, edits[..n]);
      ApplyKeepsRoom(t, edits[..n], q);
      PutCommute(u, p, x, q, y);
    }
  }

  /** A write at an edited path made beforehand leaves no trace. */
  lemma {:induction false} Absorb(t: Tree, edits: seq<Edit>, i: nat, x: Tree)
    requires i < |edits| && AllApart(edits) && Applicable(t, edits)
    ensures Apply(PutAt(t, edits[i].path, x), edits) == Apply(t, edits)
  {
    hide CanPut, PutAt;
    var n := |edits| - 1;
    var p := edits[i].path;
    if i == n {
      ApplyCommute(t, edits[..n], p, x);
      PutPut(Apply(t, edits[..n]), p, x, edits[n].sub);
    } else {
      assert edits[..n][i] == edits[i];
      Absorb(t, edits[..n], i, x);
    }
  }

  lemma {:induction false} AbsorbRemoved(t: Tree, edits: seq<Edit>, i: nat)
    requires i < |edits| && AllApart(edits) && Applicable(t, edits)
    ensures Applicable(RemoveAt(t, edits[i].path), edits)
    ensures Apply(RemoveAt(t, edits[i].path), edits) == Apply(t, edits)
  {
    var p := edits[i].path;
    var r := RemoveAt(t, p);
    PutRemoved(t, p, EMPTY_DIR);
    forall j | 0 <= j < |edits| ensures CanPut(r, edits[j].path) {
      CanPutAfterPut(r, p, EMPTY_DIR, edits[j].path);
      CanPutAfterPut(t, p, EMPTY_DIR, edits[j].path);
    }
    Absorb(r, edits, i, EMPTY_DIR);
    Absorb(t, edits, i, EMPTY_DIR);
  }

  // ------------------------------------------------------ parents made in passing

  /** `os.MkdirAll`, stopped after the first `k` components of `p`. */
  function WithParents(t: Tree, p: Path, k: nat): Tree
    requires k <= |p| && CanPut(t, p[..k])
  {
    PutAt(t, p[..k], EMPTY_DIR)
  }

  lemma {:induction false} NothingBelowMissing(t: Tree, p: Path, k: nat)
    requires 0 < k <= |p| && Lookup(t, p[..k]) == None
    ensures Lookup(t, p) == None
  {
    if t.Dir? && p[0] in t.kids && k > 1 {
      assert p[..k][1..] == p[1..][..k - 1];
      NothingBelowMissing(t.kids[p[0]], p[1..], k - 1);
    }
  }

  lemma {:induction false} RoomForParents(t: Tree, p: Path, k: nat)
    requires k <= |p| && CanPut(t, p)
    ensures CanPut(t, p[..k])
  {
    if k > 0 && p[0] in t.kids {
      assert p[..k][1..] == p[1..][..k - 1];
      RoomForParents(t.kids[p[0]], p[1..], k - 1);
    }
  }

  lemma {:induction false} RoomBelowMissing(t: Tree, p: Path, k: nat)
    requires 0 < k <= |p| && CanPut(t, p[..k]) && Lookup(t, p[..k]) == None
    ensures CanPut(t, p)
  {
    if p[0] in t.kids && k > 1 {
      assert p[..k][1..] == p[1..][..k - 1];
      RoomBelowMissing(t.kids[p[0]], p[1..], k - 1);
    }
  }

  /** A put makes the parents itself, so they leave no trace. */
  lemma {:induction false} PutThroughParents(t: Tree, p: Path, k: nat, x: Tree)
    requires 0 < k <= |p| && CanPut(t, p) && CanPut(t, p[..k]) && Lookup(t, p[..k]) == None
    ensures CanPut(WithParents(t, p, k), p)
    ensures PutAt(WithParents(t, p, k), p, x) == PutAt(t, p, x)
    decreases k
  {
    var n, rest, child := p[0], p[1..], Child(t, p[0]);
    var m := WithParents(t, p, k);
    assert p[..k][1..] == rest[..k - 1];
    if k == 1 {
      assert p[..1][1..] == [];
      assert n !in t.kids;
      assert p[..1][0] == n && PutAt(child, p[..1][1..], EMPTY_DIR) == EMPTY_DIR;
      assert m == Dir(t.kids[n := EMPTY_DIR], t.perm);
      assert m.kids[n := PutAt(EMPTY_DIR, rest, x)] == t.kids[n := PutAt(EMPTY_DIR, rest, x)];
    } else {
      assert Lookup(child, rest[..k - 1]) == None;
      PutThroughParents(child, rest, k - 1, x);
      var u := WithParents(child, rest, k - 1);
      assert m == Dir(t.kids[n := u], t.perm);
      assert m.kids[n := PutAt(u, rest, x)] == t.kids[n := PutAt(u, rest, x)];
    }
  }

  /** Nothing apart from `p` notices. */
  lemma ParentsElsewhere(t: Tree, p: Path, k: nat, q: Path)
    requires 0 < k < |p| && CanPut(t, p) && CanPut(t, p[..k]) && Lookup(t, p[..k]) == None
    requires p == q || Apart(p, q)
    ensures CanPut(WithParents(t, p, k), q) <==> CanPut(t, q)
    ensures Apart(p, q) ==> Lookup(WithParents(t, p, k), q) == Lookup(t, q)
  {
    hide Lookup, CanPut, PutAt;
    if Apart(p[..k], q) {
      PutElsewhere(t, p[..k], EMPTY_DIR, q);
      CanPutAfterPut(t, p[..k], EMPTY_DIR, q);
    } else {
      assert q <= p[..k] ==> q <= p;
      assert q[..k] == p[..k];
      RoomBelowMissing(t, q, k);
      PutThroughParents(t, q, k, EMPTY_DIR);
      NothingBelowMissing(t, q, k);
      PutThenLookup(t, p[..k], EMPTY_DIR);
      LookupAppend(WithParents(t, p, k), q[..k], q[k..]);
      assert q[..k] + q[k..] == q && q[k..] != [];
      EmptyHasNothing(q[k..]);
    }
  }

  lemma EmptyHasNothing(q: Path)
    requires q != []
    ensures Lookup(EMPTY_DIR, q) == None
  {
  }

  // ----------------------------------------------------------- what is outside

  /** The same places, with the contents forgotten. */
  function Emptied(edits: seq<Edit>): (e: seq<Edit>)
    ensures |e| == |edits|
    ensures forall i :: 0 <= i < |e| ==> e[i].path == edits[i].path
  {
    seq(|edits|, i requires 0 <= i < |edits| => edits[i].(sub := EMPTY_DIR))
  }

  /** Everything about `t` except what the edits replace. */
  function Outline(t: Tree, edits: seq<Edit>): Tree
  {
    Apply(t, Emptied(edits))
  }

  predicate IsPlace(edits: seq<Edit>, p: Path)
  {
    exists j :: 0 <= j < |edits| && edits[j].path == p
  }

  /** Edits at places of `edits` leave room for all of them. */
  lemma RoomRemains(t: Tree, first: seq<Edit>, edits: seq<Edit>)
    requires AllApart(edits) && Applicable(t, edits)
    requires forall i :: 0 <= i < |first| ==> IsPlace(edits, first[i].path)
    ensures Applicable(Apply(t, first), edits)
  {
    hide CanPut, PutAt, Apply;
    forall k | 0 <= k < |edits| ensures CanPut(Apply(t, first), edits[k].path) {
      forall i | 0 <= i < |first| ensures first[i].path == edits[k].path || Apart(first[i].path, edits[k].path) {
        assert IsPlace(edits, first[i].path);
        var m :| 0 <= m < |edits| && edits[m].path == first[i].path;
      }
      ApplyKeepsRoom(t, first, edits[k].path);
    }
  }

  lemma {:induction false} ReApply(t: Tree, first: seq<Edit>, edits: seq<Edit>)
    requires AllApart(edits) && Applicable(t, edits)
    requires AllApart(first)
    requires forall i :: 0 <= i < |first| ==> IsPlace(edits, first[i].path)
    ensures Apply(Apply(t, first), edits) == Apply(t, edits)
  {
    hide PutAt;
    if first != [] {
      var n := |first| - 1;
      var rest := first[..n];
      assert forall i :: 0 <= i < |rest| ==> rest[i] == first[i];
      assert IsPlace(edits, first[n].path);
      RoomRemains(t, rest, edits);
      ReApply(t, rest, edits);
      var j :| 0 <= j < |edits| && edits[j].path == first[n].path;
      Absorb(Apply(t, rest), edits, j, first[n].sub);
    }
  }

  /** Retry: two trees that agree outside the edited places become equal. */
  lemma ApplyDependsOnOutline(t: Tree, u: Tree, edits: seq<Edit>)
    requires AllApart(edits) && Applicable(t, edits) && Applicable(u, edits)
    requires Outline(t, edits) == Outline(u, edits)
    ensures Apply(t, edits) == Apply(u, edits)
  {
    var e := Emptied(edits);
    forall i | 0 <= i < |e| ensures IsPlace(edits, e[i].path) {
      assert edits[i].path == e[i].path;
    }
    ReApply(t, e, edits);
    ReApply(u, e, edits);
  }

  lemma OutlineOfEdited(t: Tree, edits: seq<Edit>, i: nat, x: Tree)
    requires i < |edits| && AllApart(edits) && Applicable(t, edits)
    ensures CanPut(t, edits[i].path)
    ensures Applicable(PutAt(t, edits[i].path, x), edits)
    ensures Outline(PutAt(t, edits[i].path, x), edits) == Outline(t, edits)
    ensures Applicable(RemoveAt(t, edits[i].path), edits)
    ensures Outline(RemoveAt(t, edits[i].path), edits) == Outline(t, edits)
  {
    var e := Emptied(edits);
    assert e[i].path == edits[i].path;
    Absorb(t, e, i, x);
    AbsorbRemoved(t, e, i);
    forall j | 0 <= j < |edits|
      ensures CanPut(PutAt(t, edits[i].path, x), edits[j].path)
      ensures CanPut(RemoveAt(t, edits[i].path), edits[j].path)
    {
      CanPutAfterPut(t, edits[i].path, x, edits[j].path);
      assert e[j].path == edits[j].path;
    }
  }

  lemma OutlineOfParents(t: Tree, edits: seq<Edit>, i: nat, k: nat)
    requires i < |edits| && AllApart(edits) && Applicable(t, edits)
    requires 0 < k < |edits[i].path| && CanPut(t, edits[i].path[..k]) && Lookup(t, edits[i].path[..k]) == None
    ensures Applicable(WithParents(t, edits[i].path, k), edits)
    ensures Outline(WithParents(t, edits[i].path, k), edits) == Outline(t, edits)
  {
    hide Lookup, CanPut, PutAt, Apply;
    var p, e := edits[i].path, Emptied(edits);
    var m := WithParents(t, p, k);
    forall j | 0 <= j < |edits| ensures CanPut(m, edits[j].path) {
      assert edits[j].path == p || Apart(p, edits[j].path);
      ParentsElsewhere(t, p, k, edits[j].path);
    }
    assert e[i].path == p;
    PutThroughParents(t, p, k, EMPTY_DIR);
    Absorb(t, e, i, EMPTY_DIR);
    Absorb(m, e, i, EMPTY_DIR);
  }
}
