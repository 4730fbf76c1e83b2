/** Rewriting the manifest of a published backup, and assembling it in the first place. */
module Delivery {
  import opened Text
  import opened Trees
  import opened Paths
  import opened StackScope
  import opened Listing
  import opened Manifests
  import opened Capture

  /** `recordRemoteDelivery`: append the delivery evidence and set completeness. */
  function WithDelivery(m: Manifest, status: string, complete: bool): Manifest
  {
    m.(artifacts := m.artifacts + [Artifact(REMOTE_DELIVERY, true, status, true)], complete := complete)
  }

  predicate IsDeliveryEvidence(a: Artifact)
  {
    a.path == REMOTE_DELIVERY && a.required && a.external && a.status == PRODUCED
  }

  predicate HasDelivery(m: Manifest)
  {
    exists i :: 0 <= i < |m.artifacts| && IsDeliveryEvidence(m.artifacts[i])
  }

  /** A published backup that verifies and carries produced delivery evidence. */
  ghost predicate Delivered(c: Codec, t: Tree)
  {
    Accepted(c, t) && HasDelivery(ReadManifest(c, t).value)
  }

  predicate Undelivered(m: Manifest)
  {
    forall i :: 0 <= i < |m.artifacts| ==> m.artifacts[i].path != REMOTE_DELIVERY
  }

  // ------------------------------------------------------------------ text

  lemma ReadIsText(c: Codec, t: Tree)
    requires Lossless(c) && ReadManifest(c, t).Some?
    ensures Textual(c, ReadManifest(c, t).value)
  {
  }

  lemma DeliveryIsText(c: Codec, m: Manifest, status: string, complete: bool)
    requires Lossless(c) && Textual(c, m) && (status == PRODUCED || status == FAILED)
    ensures Textual(c, WithDelivery(m, status, complete))
  {
    assert Ascii(REMOTE_DELIVERY) && Ascii(PRODUCED) && Ascii(FAILED);
    var next := WithDelivery(m, status, complete);
    forall a | a in next.artifacts ensures c.text(a.path) && c.text(a.status) {
      assert a in m.artifacts || a == next.artifacts[|m.artifacts|];
    }
  }

  /** Every file a list of `t` must mention has a path that is text. */
  ghost predicate Legible(c: Codec, t: Tree)
  {
    forall p: Path :: FileAt(t, p).Some? ==> c.text(Join(p, '/'))
  }

  /** A list whose names are text lists legible files. */
  lemma ListedIsLegible(c: Codec, style: Style, t: Tree, files: seq<ManifestFile>)
    requires IsListOf(style, t, files) && forall f :: f in files ==> c.text(f.path)
    ensures Legible(c, t)
  {
    hide FileAt, Describes, Join;
    var paths :| Describes(style, t, files, paths);
    EntriesNamed(style, t, files, paths);
    forall p: Path | FileAt(t, p).Some? ensures c.text(Join(p, '/')) {
      var i :| 0 <= i < |paths| && paths[i] == p;
      assert files[i] in files;
    }
  }

  /** A list is text exactly if the names it lists are. */
  lemma ListIsTextExactly(c: Codec, t: Tree, files: seq<ManifestFile>)
    requires Lossless(c) && IsListOf(Style(c.hash, false), t, files)
    ensures (forall f :: f in files ==> c.text(f.path) && c.text(f.sha256)) <==> Legible(c, t)
  {
    hide FileAt, Lossless, Describes, Join, IsListOf;
    NothingIsText(c);
    if forall f :: f in files ==> c.text(f.path) && c.text(f.sha256) {
      ListedIsLegible(c, Style(c.hash, false), t, files);
    }
    var paths := ListedPaths(Style(c.hash, false), t, files);
    EntriesNamed(Style(c.hash, false), t, files, paths);
  }

  lemma ListedPaths(style: Style, t: Tree, files: seq<ManifestFile>) returns (paths: seq<Path>)
    requires IsListOf(style, t, files)
    ensures Describes(style, t, files, paths)
  {
    hide Describes;
    paths :| Describes(style, t, files, paths);
  }

  /** Every entry names its file, and every file has an entry. */
  lemma EntriesNamed(style: Style, t: Tree, files: seq<ManifestFile>, paths: seq<Path>)
    requires Describes(style, t, files, paths)
    ensures |files| == |paths| && forall p: Path :: p in paths <==> FileAt(t, p).Some?
    ensures forall i :: 0 <= i < |files| ==> files[i].path == Join(paths[i], '/') && FileAt(t, paths[i]).Some?
    ensures forall i :: 0 <= i < |files| && !style.checksummed ==> files[i].sha256 == ""
  {
    hide FileAt, Join;
    forall i | 0 <= i < |files| ensures files[i].path == Join(paths[i], '/') && (!style.checksummed ==> files[i].sha256 == "") {
      assert [] + paths[i] == paths[i];
    }
  }

  lemma NothingIsText(c: Codec)
    requires Lossless(c)
    ensures c.text("")
  {
    assert Ascii("");
  }

  /** Only directories with legible names are ever accepted. */
  lemma AcceptedIsLegible(c: Codec, t: Tree)
    requires Lossless(c) && Accepted(c, t)
    ensures Legible(c, t)
  {
    hide GoodOffline, GoodConsistency, GoodStacks, GoodArtifacts, Listable, IsListOf, Lossless;
    ReadIsText(c, t);
    var m := ReadManifest(c, t).value;
    ListedIsLegible(c, StyleOf(c, m), t, m.files);
  }

  lemma LegibleIgnoresManifest(c: Codec, t: Tree, data: Data)
    requires t.Dir? && !IsDirAt(t, [MANIFEST])
    ensures Legible(c, WithManifest(t, data)) <==> Legible(c, t)
  {
    ListIgnoresManifest(t, data);
    hide FileAt, WithManifest;
  }

  // ------------------------------------- the manifest file and everything else

  lemma ReadsBack(c: Codec, t: Tree, m: Manifest)
    requires Lossless(c) && t.Dir? && m.activeStacks != Some([]) && Textual(c, m)
    ensures ReadManifest(c, WithManifest(t, c.encode(m))) == Some(m)
  {
    var u := WithManifest(t, c.encode(m));
    assert Lookup(u, [MANIFEST]) == Some(u.kids[MANIFEST]);
  }

  lemma NothingBelowFile(t: Tree, q: Path)
    requires t.Dir? && !IsDirAt(t, [MANIFEST]) && |q| > 1 && q[0] == MANIFEST
    ensures Lookup(t, q).None?
  {
    if MANIFEST in t.kids {
      assert Lookup(t, [MANIFEST]) == Some(t.kids[MANIFEST]);
      assert Lookup(t, q) == Lookup(t.kids[MANIFEST], q[1..]);
    }
  }

  lemma OtherPathsKeep(t: Tree, data: Data, q: Path)
    requires t.Dir? && (q == [] || q[0] != MANIFEST)
    ensures q != [] ==> Lookup(WithManifest(t, data), q) == Lookup(t, q)
  {
  }

  lemma ListIgnoresManifest(t: Tree, data: Data)
    requires t.Dir? && !IsDirAt(t, [MANIFEST])
    ensures forall p :: FileAt(WithManifest(t, data), p) == FileAt(t, p)
  {
    var u := WithManifest(t, data);
    forall p ensures FileAt(u, p) == FileAt(t, p) {
      if |p| > 1 && p[0] == MANIFEST {
        NothingBelowFile(t, p);
        assert Lookup(u, [MANIFEST]) == Some(u.kids[MANIFEST]);
        NothingBelowFile(u, p);
      }
    }
  }

  lemma ListableIgnoresManifest(t: Tree, data: Data)
    requires t.Dir? && Listable(t)
    ensures Listable(WithManifest(t, data))
  {
    var u := WithManifest(t, data);
    forall n | n in u.kids ensures EntryListable(u.kids[n], n) {
    }
  }

  lemma StatKeeps(t: Tree, data: Data, path: string)
    requires t.Dir? && Stat(t, path).Some? && !IsDirAt(t, [MANIFEST])
    ensures Stat(WithManifest(t, data), path).Some?
  {
    if path != "." {
      var q := ToPath(Split(path, '/')).value;
      if q != [] && q[0] == MANIFEST {
        if |q| > 1 {
          NothingBelowFile(t, q);
        }
        assert q == [MANIFEST];
        assert Lookup(WithManifest(t, data), q).Some?;
      }
    }
  }

  lemma SoundKeeps(c: Codec, t: Tree, data: Data, m: Manifest)
    requires t.Dir? && !IsDirAt(t, [MANIFEST]) && Sound(c, t, m)
    ensures Sound(c, WithManifest(t, data), m)
  {
    var u := WithManifest(t, data);
    OtherPathsKeep(t, data, [OFFLINE_TAR]);
    forall name | HasCompose(t, name) ensures HasCompose(u, name) {
      OtherPathsKeep(t, data, [DEFINITIONS, name, COMPOSE]);
    }
    forall i | 0 <= i < |m.artifacts| ensures GoodArtifact(m.artifacts[i], m.complete, u) {
      assert GoodArtifact(m.artifacts[i], m.complete, t);
      if Stat(t, m.artifacts[i].path).Some? {
        StatKeeps(t, data, m.artifacts[i].path);
      }
    }
    ListableIgnoresManifest(t, data);
    ListIgnoresManifest(t, data);
    SameViewsSameList(StyleOf(c, m), t, u, m.files);
  }

  // -------------------------------------------------------------- the lemmas

  /** Recording a successful delivery keeps the backup acceptable and makes it
      delivered. */
  lemma DeliveryRecorded(c: Codec, t: Tree)
    requires Lossless(c) && Accepted(c, t)
    requires var m := ReadManifest(c, t).value; m.activeStacks != Some([]) && Undelivered(m)
    ensures Delivered(c, WithManifest(t, c.encode(WithDelivery(ReadManifest(c, t).value, PRODUCED, true))))
  {
    var m := ReadManifest(c, t).value;
    var next := WithDelivery(m, PRODUCED, true);
    var u := WithManifest(t, c.encode(next));
    SoundKeeps(c, t, c.encode(next), m);
    DeliveryIsText(c, m, PRODUCED, true);
    ReadsBack(c, t, next);
    DeliveryEvidenceGood(m.artifacts, u);
    MoreArtifactsSound(c, u, m, next.artifacts);
    assert IsDeliveryEvidence(next.artifacts[|m.artifacts|]);
  }

  lemma MoreArtifactsSound(c: Codec, t: Tree, m: Manifest, artifacts: seq<Artifact>)
    requires Sound(c, t, m) && GoodArtifacts(artifacts, true, t)
    ensures Sound(c, t, m.(artifacts := artifacts, complete := true))
  {
    var next := m.(artifacts := artifacts, complete := true);
    assert StackList(next) == StackList(m) && StyleOf(c, next) == StyleOf(c, m);
  }

  lemma DeliveryEvidenceGood(a: seq<Artifact>, t: Tree)
    requires GoodArtifacts(a, true, t)
    requires forall i :: 0 <= i < |a| ==> a[i].path != REMOTE_DELIVERY
    ensures GoodArtifacts(a + [Artifact(REMOTE_DELIVERY, true, PRODUCED, true)], true, t)
  {
    EvidenceGood([REMOTE_DELIVERY], t);
    AppendGood(a, [Artifact(REMOTE_DELIVERY, true, PRODUCED, true)], true, t);
  }

  lemma EvidenceGood(p: Path, t: Tree)
    requires |p| == 1 && p[0][0] != '.'
    ensures GoodArtifacts([Artifact(p[0], true, PRODUCED, true)], true, t)
  {
    PathIsCleanRelative(p);
  }

  /** Recording a failed delivery makes `Verify` reject the published backup. */
  lemma FailureRecorded(c: Codec, t: Tree)
    requires Lossless(c) && t.Dir? && ReadManifest(c, t).Some? && ReadManifest(c, t).value.activeStacks != Some([])
    ensures !Accepted(c, WithManifest(t, c.encode(WithDelivery(ReadManifest(c, t).value, FAILED, false))))
  {
    var m := ReadManifest(c, t).value;
    DeliveryIsText(c, m, FAILED, false);
    ReadsBack(c, t, WithDelivery(m, FAILED, false));
  }

  /** The manifest a run assembles over a directory it filled. */
  ghost predicate Assembled(c: Codec, t: Tree, active: seq<string>, images: bool, m: Manifest)
  {
    && Canonical(active) && active != []
    && m.version == CURRENT_VERSION && m.complete
    && m.activeStacks == Some(active) && m.stackDefinitions
    && m.offlineImages == images && m.repositoryBundle == images
    && m.artifacts == AllArtifacts(t, active, images, true)
    && m.consistency == (if GITEA in active then SERVICE_BOUNDARIES else LOGICAL_ONLINE)
    && |m.boundaries| == (if GITEA in active then 1 else 0)
    && IsListOf(Style(c.hash, false), t, m.files)
  }

  /** Self-acceptance: the assembled manifest, once written, passes `Verify`. */
  lemma AssembledAccepted(c: Codec, t: Tree, active: seq<string>, images: bool, m: Manifest)
    requires Lossless(c) && Assembled(c, t, active, images, m) && Textual(c, m)
    requires Listable(t) && MANIFEST !in t.kids
    requires GoodID(m.id)
    requires AllPresent(t, RequiredPaths(t, active, images))
    requires forall i :: 0 <= i < |active| ==> HasCompose(t, active[i])
    requires forall i :: 0 <= i < |m.boundaries| ==> GoodBoundary(m.boundaries[i], m.createdAt)
    requires GoodOffline(m, t)
    ensures Accepted(c, WithManifest(t, c.encode(m)))
    ensures ReadManifest(c, WithManifest(t, c.encode(m))) == Some(m)
    ensures Undelivered(m)
  {
    assert !IsDirAt(t, [MANIFEST]) by {
      assert Lookup(t, [MANIFEST]) == None;
    }
    AssembledConsistent(c, t, active, images, m);
    ExpectedArtifactsGood(t, active, images, true);
    assert Sound(c, t, m);
    SoundKeeps(c, t, c.encode(m), m);
    ReadsBack(c, t, m);
    AssembledUndelivered(t, active, images);
  }

  lemma AssembledConsistent(c: Codec, t: Tree, active: seq<string>, images: bool, m: Manifest)
    requires Assembled(c, t, active, images, m)
    requires forall i :: 0 <= i < |m.boundaries| ==> GoodBoundary(m.boundaries[i], m.createdAt)
    ensures GoodConsistency(m)
  {
    ContainsIsMembership(active, GITEA);
    assert SERVICE_BOUNDARIES != LOGICAL_ONLINE;
  }

  lemma AssembledUndelivered(t: Tree, active: seq<string>, images: bool)
    requires Canonical(active)
    ensures forall i :: 0 <= i < |AllArtifacts(t, active, images, true)| ==>
      AllArtifacts(t, active, images, true)[i].path != REMOTE_DELIVERY
  {
    var ps := RequiredPaths(t, active, images);
    var a := AllArtifacts(t, active, images, true);
    var delivery: Path := [REMOTE_DELIVERY];
    assert Join(delivery, '/') == REMOTE_DELIVERY;
    forall i | 0 <= i < |a| ensures a[i].path != REMOTE_DELIVERY {
      if i < |ps| {
        if ps[i] in StacksPaths(t, active) {
          NotAnImagePath(t, active, ps[i]);
        }
        DifferentPaths(ps[i], delivery);
      }
    }
  }
}
