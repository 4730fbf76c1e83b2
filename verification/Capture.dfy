/** What a backup directory holds: the artifacts each active stack contributes
    and the manifest that describes them. */
module Capture {
  import opened Text
  import opened Trees
  import opened Paths
  import opened StackScope
  import opened Manifests

  const KEYCLOAK := "keycloak"
  const HARBOR := "harbor"
  const OPENBAO := "openbao"

  const KEYCLOAK_DUMP: Name := "keycloak.dump"
  const GITEA_DUMP: Name := "gitea.dump"
  const GITEA_STACK: Name := "gitea-stack"
  const GITEA_DATA: Name := "gitea-data"
  const HARBOR_DUMP: Name := "harbor.dump"
  const HARBOR_DATA: Name := "harbor-data"
  const OPENBAO_SNAP: Name := "openbao.snap"

  const REMOTE_DELIVERY := "remote-delivery"

  predicate ValidNames(active: seq<string>)
  {
    forall i :: 0 <= i < |active| ==> ValidName(active[i])
  }

  // -------------------------------------------------------------- artifacts

  /** The required paths one active stack contributes, in the order listed. */
  function StackPaths(t: Tree, stack: string): (ps: seq<Path>)
    requires ValidName(stack)
    ensures forall i :: 0 <= i < |ps| ==> ps[i] != []
  {
    ValidNameIsEntry(stack);
    [[DEFINITIONS, stack]] + ServicePaths(t, stack)
  }

  function ServicePaths(t: Tree, stack: string): (ps: seq<Path>)
    ensures |ps| <= 2
    ensures forall i :: 0 <= i < |ps| ==> |ps[i]| == 1
  {
    if stack == KEYCLOAK then [[KEYCLOAK_DUMP]]
    else if stack == GITEA then
      [[GITEA_DUMP], if IsDirAt(t, [GITEA_STACK]) then [GITEA_STACK] else [GITEA_DATA]]
    else if stack == HARBOR then [[HARBOR_DUMP], [HARBOR_DATA]]
    else if stack == OPENBAO then [[OPENBAO_SNAP]]
    else []
  }

  function RequiredPaths(t: Tree, active: seq<string>, images: bool): (ps: seq<Path>)
    requires ValidNames(active)
    ensures forall i :: 0 <= i < |ps| ==> ps[i] != []
  {
    StacksPaths(t, active) + if images then [[OFFLINE_TAR], [BUNDLE]] else []
  }

  function StacksPaths(t: Tree, active: seq<string>): (ps: seq<Path>)
    requires ValidNames(active)
    ensures forall i :: 0 <= i < |ps| ==> ps[i] != []
  {
    if active == [] then []
    else StacksPaths(t, active[..|active| - 1]) + StackPaths(t, active[|active| - 1])
  }

  function LocalStatus(t: Tree, p: Path, requireProduced: bool): string
  {
    if Lookup(t, p).Some? || requireProduced then PRODUCED else FAILED
  }

  /** `expectedManifestArtifacts`. Required entries record whether they exist,
      or are claimed produced outright; the image entries are disabled otherwise. */
  method ExpectedArtifacts(t: Tree, active: seq<string>, images: bool, requireProduced: bool)
    returns (artifacts: seq<Artifact>)
    requires ValidNames(active)
    ensures artifacts == AllArtifacts(t, active, images, requireProduced)
  {
    hide Lookup, StackPaths, ValidName, LocalStatus;
    artifacts := [];
    var k := 0;
    while k < |active|
      invariant 0 <= k <= |active|
      invariant artifacts == RequiredArtifacts(t, StacksPaths(t, active[..k]), requireProduced)
    {
      assert active[..k + 1][..k] == active[..k];
      RequiredAppend(t, StacksPaths(t, active[..k]), StackPaths(t, active[k]), requireProduced);
      var more := StackArtifacts(t, active[k], requireProduced);
      artifacts := artifacts + more;
      k := k + 1;
    }
    assert active[..|active|] == active;
    if images {
      RequiredAppend(t, StacksPaths(t, active), [[OFFLINE_TAR], [BUNDLE]], requireProduced);
      artifacts := artifacts + [Required(t, [OFFLINE_TAR], requireProduced), Required(t, [BUNDLE], requireProduced)];
    } else {
      artifacts := artifacts + DisabledImages();
    }
  }

  /** The body of the loop: one stack's definition, then what its service needs. */
  method StackArtifacts(t: Tree, stack: string, requireProduced: bool) returns (artifacts: seq<Artifact>)
    requires ValidName(stack)
    ensures artifacts == RequiredArtifacts(t, StackPaths(t, stack), requireProduced)
  {
    ValidNameIsEntry(stack);
    artifacts := [Required(t, [DEFINITIONS, stack], requireProduced)];
    match stack {
      case "keycloak" =>
        artifacts := artifacts + [Required(t, [KEYCLOAK_DUMP], requireProduced)];
      case "gitea" =>
        artifacts := artifacts + [Required(t, [GITEA_DUMP], requireProduced)];
        if IsDirAt(t, [GITEA_STACK]) {
          artifacts := artifacts + [Required(t, [GITEA_STACK], requireProduced)];
        } else {
          artifacts := artifacts + [Required(t, [GITEA_DATA], requireProduced)];
        }
      case "harbor" =>
        artifacts := artifacts + [Required(t, [HARBOR_DUMP], requireProduced), Required(t, [HARBOR_DATA], requireProduced)];
      case "openbao" =>
        artifacts := artifacts + [Required(t, [OPENBAO_SNAP], requireProduced)];
      case _ =>
    }
  }

  function AllArtifacts(t: Tree, active: seq<string>, images: bool, requireProduced: bool): seq<Artifact>
    requires ValidNames(active)
  {
    RequiredArtifacts(t, RequiredPaths(t, active, images), requireProduced) + (if images then [] else DisabledImages())
  }

  function Required(t: Tree, p: Path, requireProduced: bool): Artifact
    requires p != []
  {
    Artifact(Join(p, '/'), true, LocalStatus(t, p, requireProduced), false)
  }

  function RequiredArtifacts(t: Tree, ps: seq<Path>, requireProduced: bool): (a: seq<Artifact>)
    requires forall i :: 0 <= i < |ps| ==> ps[i] != []
    ensures |a| == |ps|
  {
    seq(|ps|, i requires 0 <= i < |ps| => Required(t, ps[i], requireProduced))
  }

  lemma RequiredAppend(t: Tree, ps: seq<Path>, qs: seq<Path>, requireProduced: bool)
    requires forall i :: 0 <= i < |ps| ==> ps[i] != []
    requires forall i :: 0 <= i < |qs| ==> qs[i] != []
    ensures RequiredArtifacts(t, ps + qs, requireProduced) ==
      RequiredArtifacts(t, ps, requireProduced) + RequiredArtifacts(t, qs, requireProduced)
  {
  }

  function DisabledImages(): seq<Artifact>
  {
    [DisabledAt([OFFLINE_TAR]), DisabledAt([BUNDLE])]
  }

  function DisabledAt(p: Path): Artifact
  {
    Artifact(Join(p, '/'), false, DISABLED, false)
  }

  /** The stack a required path belongs to; the empty name stands for none. */
  function OwnerOf(p: Path): string
  {
    if |p| == 2 then p[1]
    else if p == [KEYCLOAK_DUMP] then KEYCLOAK
    else if p == [GITEA_DUMP] || p == [GITEA_STACK] || p == [GITEA_DATA] then GITEA
    else if p == [HARBOR_DUMP] || p == [HARBOR_DATA] then HARBOR
    else if p == [OPENBAO_SNAP] then OPENBAO
    else ""
  }

  predicate NoRepeats(ps: seq<Path>)
  {
    forall i, j :: 0 <= i < j < |ps| ==> ps[i] != ps[j]
  }

  lemma StackPathsOwned(t: Tree, stack: string)
    requires ValidName(stack)
    ensures forall p :: p in StackPaths(t, stack) ==> OwnerOf(p) == stack
    ensures NoRepeats(StackPaths(t, stack))
  {
  }

  lemma {:induction false} StacksPathsDistinct(t: Tree, active: seq<string>)
    requires ValidNames(active) && StrictlySorted(active)
    ensures NoRepeats(StacksPaths(t, active))
    ensures forall p :: p in StacksPaths(t, active) ==> OwnerOf(p) in active
  {
    if active != [] {
      var n := |active| - 1;
      var before, here := StacksPaths(t, active[..n]), StackPaths(t, active[n]);
      StacksPathsDistinct(t, active[..n]);
      StackPathsOwned(t, active[n]);
      SortedIsDistinct(active);
      assert active == active[..n] + [active[n]];
      forall i, j | 0 <= i < |before| && 0 <= j < |here| ensures before[i] != here[j] {
        assert before[i] in before && here[j] in here;
        assert active[n] !in active[..n];
      }
    }
  }

  lemma RequiredPathsDistinct(t: Tree, active: seq<string>, images: bool)
    requires ValidNames(active) && StrictlySorted(active)
    ensures NoRepeats(RequiredPaths(t, active, images))
  {
    StacksPathsDistinct(t, active);
    var ps := StacksPaths(t, active);
    forall i | 0 <= i < |ps| ensures ps[i] != [OFFLINE_TAR] && ps[i] != [BUNDLE] {
      assert ps[i] in ps;
      assert ValidName(OwnerOf(ps[i]));
    }
  }

  predicate AllPresent(t: Tree, ps: seq<Path>)
  {
    forall i :: 0 <= i < |ps| ==> Lookup(t, ps[i]).Some?
  }

  /** The artifact list of a directory that holds every required path passes its
      own validation, for every canonical stack list. */
  lemma ExpectedArtifactsGood(t: Tree, active: seq<string>, images: bool, complete: bool)
    requires Canonical(active)
    requires AllPresent(t, RequiredPaths(t, active, images))
    ensures GoodArtifacts(AllArtifacts(t, active, images, true), complete, t)
  {
    var ps := RequiredPaths(t, active, images);
    RequiredPathsDistinct(t, active, images);
    RequiredStartPlain(t, active, images);
    RequiredArtifactsGood(t, ps, complete);
    if !images {
      DisabledPairGood(t, [OFFLINE_TAR], [BUNDLE], complete);
      forall i | 0 <= i < |ps|
        ensures Join(ps[i], '/') != DisabledAt([OFFLINE_TAR]).path && Join(ps[i], '/') != DisabledAt([BUNDLE]).path
      {
        NotAnImagePath(t, active, ps[i]);
        DifferentPaths(ps[i], [OFFLINE_TAR]);
        DifferentPaths(ps[i], [BUNDLE]);
      }
      AppendGood(RequiredArtifacts(t, ps, true), DisabledImages(), complete, t);
    }
  }

  lemma AppendGood(a: seq<Artifact>, b: seq<Artifact>, complete: bool, t: Tree)
    requires GoodArtifacts(a, complete, t) && GoodArtifacts(b, complete, t)
    requires forall i, j :: 0 <= i < |a| && 0 <= j < |b| ==> a[i].path != b[j].path
    ensures GoodArtifacts(a + b, complete, t)
  {
  }

  lemma DisabledPairGood(t: Tree, p: Path, q: Path, complete: bool)
    requires p != [] && q != [] && p != q && p[0][0] != '.' && q[0][0] != '.'
    ensures GoodArtifacts([DisabledAt(p), DisabledAt(q)], complete, t)
  {
    DisabledGood(t, p, complete);
    DisabledGood(t, q, complete);
    DifferentPaths(p, q);
  }

  lemma RequiredArtifactsGood(t: Tree, ps: seq<Path>, complete: bool)
    requires forall i :: 0 <= i < |ps| ==> ps[i] != [] && ps[i][0][0] != '.'
    requires AllPresent(t, ps) && NoRepeats(ps)
    ensures GoodArtifacts(RequiredArtifacts(t, ps, true), complete, t)
  {
    var a := RequiredArtifacts(t, ps, true);
    forall i | 0 <= i < |a| ensures GoodArtifact(a[i], complete, t) {
      PathIsCleanRelative(ps[i]);
      StatOfNames(t, ps[i]);
    }
    forall i, j | 0 <= i < j < |a| ensures a[i].path != a[j].path {
      DifferentPaths(ps[i], ps[j]);
    }
  }

  lemma DifferentPaths(p: Path, q: Path)
    requires p != [] && q != [] && p != q
    ensures Join(p, '/') != Join(q, '/')
  {
    if Join(p, '/') == Join(q, '/') {
      JoinInjective(p, q);
    }
  }

  lemma PathIsCleanRelative(p: Path)
    requires p != [] && p[0][0] != '.'
    ensures CleanRelative(Join(p, '/'))
  {
    NamesAreClean(p);
    assert Join(p, '/')[0] == p[0][0];
  }

  lemma DisabledGood(t: Tree, p: Path, complete: bool)
    requires p != [] && p[0][0] != '.'
    ensures GoodArtifact(DisabledAt(p), complete, t)
  {
    PathIsCleanRelative(p);
  }

  lemma {:induction false} RequiredStartPlain(t: Tree, active: seq<string>, images: bool)
    requires ValidNames(active)
    ensures forall p :: p in RequiredPaths(t, active, images) ==> p != [] && p[0][0] != '.'
    decreases |active|
  {
    if active != [] {
      RequiredStartPlain(t, active[..|active| - 1], false);
    }
  }

  lemma NotAnImagePath(t: Tree, active: seq<string>, p: Path)
    requires Canonical(active) && p in StacksPaths(t, active)
    ensures p != [OFFLINE_TAR] && p != [BUNDLE] && p != [REMOTE_DELIVERY]
  {
    StacksPathsDistinct(t, active);
    assert ValidName(OwnerOf(p));
  }
}
