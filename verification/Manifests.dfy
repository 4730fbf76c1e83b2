/** The backup manifest and the checks that accept or reject a backup directory. */
module Manifests {
  import opened Text
  import opened Trees
  import opened Paths
  import opened StackScope
  import opened Listing

  /** An instant; 0 is Go's zero time. */
  type Time = int

  datatype ImageArchive = ImageArchive(source: string, tag: string, imageID: string)
  datatype Artifact = Artifact(path: string, required: bool, status: string, external: bool)
  datatype Boundary = Boundary(service: string, how: string, startedAt: Time, completedAt: Time)

  const PRODUCED := "produced"
  const DISABLED := "disabled"
  const FAILED := "failed"

  /** `activeStacks` is None for the older manifests that do not record it. */
  datatype Manifest = Manifest(
    version: int, id: string, createdAt: Time, hostname: string, cliRevision: string,
    offlineImages: bool, images: seq<string>, archives: seq<ImageArchive>,
    activeStacks: Option<seq<string>>, stackDefinitions: bool, repositoryBundle: bool,
    artifacts: seq<Artifact>, consistency: string, boundaries: seq<Boundary>,
    complete: bool, files: seq<ManifestFile>)

  const LEGACY_VERSION := 2
  const CHECKSUMMED_VERSION := 3
  const CURRENT_VERSION := 4

  /** JSON and SHA-256, of which only what is stated here is used. `text` tells which
      byte strings are valid UTF-8. */
  datatype Codec = Codec(encode: Manifest -> Data, decode: Data -> Option<Manifest>, hash: Data -> string, text: string -> bool)

  predicate Ascii(s: string)
  {
    forall i :: 0 <= i < |s| ==> s[i] < '\U{0080}'
  }

  type Stamp = s: string | Ascii(s) witness ""

  /** Every string of the manifest is text. */
  predicate Textual(c: Codec, m: Manifest)
  {
    && c.text(m.id) && c.text(m.hostname) && c.text(m.cliRevision) && c.text(m.consistency)
    && (forall s :: s in m.images ==> c.text(s))
    && (forall a :: a in m.archives ==> c.text(a.source) && c.text(a.tag) && c.text(a.imageID))
    && (m.activeStacks.Some? ==> forall s :: s in m.activeStacks.value ==> c.text(s))
    && (forall a :: a in m.artifacts ==> c.text(a.path) && c.text(a.status))
    && (forall b :: b in m.boundaries ==> c.text(b.service) && c.text(b.how))
    && (forall f :: f in m.files ==> c.text(f.path) && c.text(f.sha256))
  }

  /** What is used of the encoder: a manifest of text is read back as written, provided
      its optional lists are not empty but present, which the encoder leaves out;
      nothing but text is ever read; and plain ASCII is text. What is no text, the
      encoder replaces. */
  ghost predicate Lossless(c: Codec)
  {
    && (forall m: Manifest :: Textual(c, m) && m.activeStacks != Some([]) ==> c.decode(c.encode(m)) == Some(m))
    && (forall d :: c.decode(d).Some? ==> Textual(c, c.decode(d).value))
    && (forall s :: Ascii(s) ==> c.text(s))
  }

  function ReadManifest(c: Codec, t: Tree): Option<Manifest>
  {
    var f := Lookup(t, [MANIFEST]);
    if f.Some? && f.value.File? then c.decode(f.value.data) else None
  }

  /** `WriteManifest`: the file is created with mode 0600 and truncated if it exists. */
  function WithManifest(t: Tree, data: Data): Tree
    requires t.Dir?
  {
    Dir(t.kids[MANIFEST := File(data, MODE_0600)], t.perm)
  }

  predicate SupportedVersion(v: int)
  {
    v == LEGACY_VERSION || v == CHECKSUMMED_VERSION || v == CURRENT_VERSION
  }

  // ----------------------------------------------------- acceptance, declared

  predicate DotDotAt(s: string, i: nat)
    requires i + 1 < |s|
  {
    s[i] == '.' && s[i + 1] == '.'
  }

  predicate GoodID(id: string)
  {
    id != "" && Base(id) == id && forall i :: 0 <= i < |id| - 1 ==> !DotDotAt(id, i)
  }

  predicate DistinctSources(a: seq<ImageArchive>)
  {
    forall i, j :: 0 <= i < j < |a| ==> a[i].source != a[j].source
  }

  predicate DistinctTags(a: seq<ImageArchive>)
  {
    forall i, j :: 0 <= i < j < |a| ==> a[i].tag != a[j].tag
  }

  predicate CompleteArchive(a: ImageArchive)
  {
    !Blank(a.source) && !Blank(a.tag) && !Blank(a.imageID)
  }

  const OFFLINE_TAR: Name := "offline-images.tar"
  const BUNDLE: Name := "repository.bundle"
  const DEFINITIONS: Name := "stack-definitions"

  predicate GoodOffline(m: Manifest, t: Tree)
  {
    if !m.offlineImages then m.archives == []
    else
      && IsFileAt(t, [OFFLINE_TAR]) && m.archives != []
      && (forall i :: 0 <= i < |m.archives| ==> CompleteArchive(m.archives[i]))
      && DistinctSources(m.archives) && DistinctTags(m.archives)
  }

  const QUIESCED := "application-quiesced"
  const ALREADY_STOPPED := "application-already-stopped"
  const BY_SNAPSHOT := "-postgresql-dump-and-btrfs-snapshot"
  const BY_COPY := "-postgresql-dump-and-filesystem-copy"
  const SERVICE_BOUNDARIES := "service-specific-consistency-boundaries"
  const LOGICAL_ONLINE := "logical-online"
  const GITEA := "gitea"

  predicate KnownMethod(how: string)
  {
    how == QUIESCED + BY_SNAPSHOT || how == QUIESCED + BY_COPY ||
    how == ALREADY_STOPPED + BY_SNAPSHOT || how == ALREADY_STOPPED + BY_COPY
  }

  predicate GoodBoundary(b: Boundary, createdAt: Time)
  {
    && b.service == GITEA && KnownMethod(b.how)
    && b.startedAt != 0 && b.completedAt != 0
    && b.startedAt <= b.completedAt <= createdAt
  }

  function StackList(m: Manifest): seq<string>
  {
    if m.activeStacks.Some? then m.activeStacks.value else []
  }

  /** At most one boundary exists, it is Gitea's, and the declared consistency
      level says whether it does. */
  predicate GoodConsistency(m: Manifest)
  {
    && (forall i :: 0 <= i < |m.boundaries| ==> GoodBoundary(m.boundaries[i], m.createdAt))
    && |m.boundaries| == (if m.consistency == SERVICE_BOUNDARIES then 1 else 0)
    && (m.consistency == SERVICE_BOUNDARIES ==> Contains(StackList(m), GITEA))
    && (m.version >= CHECKSUMMED_VERSION && Contains(StackList(m), GITEA) ==> m.consistency == SERVICE_BOUNDARIES)
  }

  predicate CleanRelative(path: string)
  {
    path != "" && !IsAbs(path) && Clean(path) == path && !(".." <= path)
  }

  predicate GoodArtifact(a: Artifact, complete: bool, t: Tree)
  {
    && CleanRelative(a.path)
    && (a.status == PRODUCED || a.status == DISABLED || a.status == FAILED)
    && (a.status == PRODUCED ==> a.external || Stat(t, a.path).Some?)
    && (a.status == DISABLED ==> !a.required)
    && (a.status == FAILED ==> !complete)
  }

  predicate DistinctPaths(a: seq<Artifact>)
  {
    forall i, j :: 0 <= i < j < |a| ==> a[i].path != a[j].path
  }

  predicate GoodArtifacts(a: seq<Artifact>, complete: bool, t: Tree)
  {
    (forall i :: 0 <= i < |a| ==> GoodArtifact(a[i], complete, t)) && DistinctPaths(a)
  }

  predicate HasCompose(t: Tree, name: string)
  {
    ValidEntry(name) &&
    var f := Lookup(t, [DEFINITIONS, name, COMPOSE]);
    f.Some? && f.value.File?
  }

  predicate GoodStacks(m: Manifest, t: Tree)
  {
    m.activeStacks.Some? ==>
      && m.stackDefinitions && Canonical(m.activeStacks.value)
      && forall i :: 0 <= i < |m.activeStacks.value| ==> HasCompose(t, m.activeStacks.value[i])
  }

  function StyleOf(c: Codec, m: Manifest): Style { Style(c.hash, m.version < CURRENT_VERSION) }

  /** Everything `Verify` demands of a directory whose manifest reads as `m`. */
  ghost predicate Sound(c: Codec, t: Tree, m: Manifest)
  {
    && SupportedVersion(m.version) && m.complete && GoodID(m.id)
    && (m.version >= CHECKSUMMED_VERSION ==> GoodOffline(m, t))
    && GoodConsistency(m)
    && GoodStacks(m, t)
    && GoodArtifacts(m.artifacts, m.complete, t)
    && Listable(t) && IsListOf(StyleOf(c, m), t, m.files)
  }

  ghost predicate Accepted(c: Codec, t: Tree)
  {
    ReadManifest(c, t).Some? && Sound(c, t, ReadManifest(c, t).value)
  }

  // ---------------------------------------------------------- the checks, run

  method ValidateOfflineRecovery(m: Manifest, t: Tree) returns (ok: bool)
    ensures ok <==> GoodOffline(m, t)
  {
    hide Lookup, Blank;
    if !m.offlineImages {
      return |m.archives| == 0;
    }
    if !IsFileAt(t, [OFFLINE_TAR]) || |m.archives| == 0 {
      return false;
    }
    var seenSources, seenTags: set<string> := {}, {};
    var k := 0;
    while k < |m.archives|
      invariant 0 <= k <= |m.archives|
      invariant forall i :: 0 <= i < k ==> CompleteArchive(m.archives[i])
      invariant forall s :: s in seenSources <==> exists i :: 0 <= i < k && m.archives[i].source == s
      invariant forall s :: s in seenTags <==> exists i :: 0 <= i < k && m.archives[i].tag == s
      invariant DistinctSources(m.archives[..k]) && DistinctTags(m.archives[..k])
    {
      var image := m.archives[k];
      if Blank(image.source) || Blank(image.tag) || Blank(image.imageID) {
        return false;
      }
      if image.source in seenSources || image.tag in seenTags {
        return false;
      }
      seenSources, seenTags := seenSources + {image.source}, seenTags + {image.tag};
      k := k + 1;
    }
    assert m.archives[..|m.archives|] == m.archives;
    return true;
  }

  /** The loop over boundaries, with its set of services seen so far. */
  method ValidateBoundaries(m: Manifest) returns (ok: bool)
    ensures ok <==> GoodConsistency(m)
  {
    var seen: set<string> := {};
    var k := 0;
    while k < |m.boundaries|
      invariant 0 <= k <= |m.boundaries|
      invariant forall i :: 0 <= i < k ==> GoodBoundary(m.boundaries[i], m.createdAt)
      invariant seen == if k == 0 then {} else {GITEA}
      invariant k <= 1
    {
      var b := m.boundaries[k];
      if b.startedAt == 0 || b.completedAt == 0 || b.completedAt < b.startedAt || b.completedAt > m.createdAt {
        return false;
      }
      if b.service in seen {
        return false;
      }
      seen := seen + {b.service};
      if b.service != GITEA || !KnownMethod(b.how) {
        return false;
      }
      k := k + 1;
    }
    var hasGitea := Contains(StackList(m), GITEA);
    if m.version >= CHECKSUMMED_VERSION && hasGitea && m.consistency != SERVICE_BOUNDARIES {
      return false;
    }
    if m.consistency == SERVICE_BOUNDARIES {
      return hasGitea && GITEA in seen && |seen| == 1;
    }
    return |m.boundaries| == 0;
  }

  method ValidateArtifacts(artifacts: seq<Artifact>, complete: bool, t: Tree) returns (ok: bool)
    ensures ok <==> GoodArtifacts(artifacts, complete, t)
  {
    var seen: set<string> := {};
    var k := 0;
    while k < |artifacts|
      invariant 0 <= k <= |artifacts|
      invariant forall i :: 0 <= i < k ==> GoodArtifact(artifacts[i], complete, t)
      invariant forall i :: 0 <= i < k ==> artifacts[i].path in seen
      invariant forall s :: s in seen ==> exists i :: 0 <= i < k && artifacts[i].path == s
      invariant forall i, j :: 0 <= i < j < k ==> artifacts[i].path != artifacts[j].path
    {
      var a := artifacts[k];
      var good := ValidateArtifact(a, complete, t);
      if !good || a.path in seen {
        return false;
      }
      seen := seen + {a.path};
      k := k + 1;
    }
    return true;
  }

  method ValidateArtifact(a: Artifact, complete: bool, t: Tree) returns (ok: bool)
    ensures ok <==> GoodArtifact(a, complete, t)
  {
    if a.path == "" || IsAbs(a.path) || Clean(a.path) != a.path || ".." <= a.path {
      return false;
    }
    if a.status == PRODUCED {
      return a.external || Stat(t, a.path).Some?;
    } else if a.status == DISABLED {
      return !a.required;
    } else if a.status == FAILED {
      return !complete;
    }
    return false;
  }

  method ValidateActiveStacks(m: Manifest, t: Tree) returns (ok: bool)
    ensures ok <==> GoodStacks(m, t)
  {
    if m.activeStacks.None? {
      return true;
    }
    if !m.stackDefinitions {
      return false;
    }
    var names := m.activeStacks.value;
    var valid := Validate(names);
    if !valid {
      return false;
    }
    var k := 0;
    while k < |names|
      invariant 0 <= k <= |names|
      invariant forall i :: 0 <= i < k ==> HasCompose(t, names[i])
    {
      if !HasCompose(t, names[k]) {
        return false;
      }
      k := k + 1;
    }
    return true;
  }

  method Verify(c: Codec, t: Tree) returns (r: Option<Manifest>)
    ensures r == if Accepted(c, t) then ReadManifest(c, t) else None
  {
    var read := ReadManifest(c, t);
    if read.None? {
      return None;
    }
    var m := read.value;
    if !SupportedVersion(m.version) || !m.complete || !GoodID(m.id) {
      return None;
    }
    if m.version >= CHECKSUMMED_VERSION {
      var ok := ValidateOfflineRecovery(m, t);
      if !ok { return None; }
    }
    var fine := ValidateBoundaries(m);
    if !fine { return None; }
    fine := ValidateActiveStacks(m, t);
    if !fine { return None; }
    if |m.artifacts| > 0 {
      fine := ValidateArtifacts(m.artifacts, m.complete, t);
      if !fine { return None; }
    }
    var built, actual := BuildManifestFiles(StyleOf(c, m), t);
    if !built {
      return None;
    }
    if actual != m.files {
      if IsListOf(StyleOf(c, m), t, m.files) {
        ListsEqualExactly(StyleOf(c, m), t, t, actual, m.files);
      }
      return None;
    }
    return read;
  }

  // -------------------------------------------------- what acceptance means

  /** A manifest that is accepted had its Gitea test judged correctly, although
      the binary search runs before the list is known to be sorted. */
  lemma AcceptedGiteaJudgedRightly(c: Codec, t: Tree)
    requires Accepted(c, t)
    ensures var m := ReadManifest(c, t).value;
      m.version >= CHECKSUMMED_VERSION ==>
        (GITEA in StackList(m) <==> m.consistency == SERVICE_BOUNDARIES && |m.boundaries| == 1)
  {
    ContainsIsMembership(StackList(ReadManifest(c, t).value), GITEA);
  }

  /** Tampering: an accepted directory stays accepted under the same manifest
      exactly as long as its listed files keep their paths and sizes (and, before
      version 4, hashes), its required entries stay, and the walk stays clean. */
  lemma AcceptedAfterChange(c: Codec, t: Tree, u: Tree)
    requires Accepted(c, t) && ReadManifest(c, u) == ReadManifest(c, t)
    ensures var m := ReadManifest(c, t).value;
      Accepted(c, u) <==>
        && (forall p :: View(StyleOf(c, m), u, p) == View(StyleOf(c, m), t, p))
        && Listable(u) && GoodStacks(m, u) && GoodArtifacts(m.artifacts, m.complete, u)
        && (m.version >= CHECKSUMMED_VERSION ==> GoodOffline(m, u))
  {
    var m := ReadManifest(c, t).value;
    var style := StyleOf(c, m);
    if IsListOf(style, u, m.files) {
      ListsEqualExactly(style, u, t, m.files, m.files);
    }
    if forall p :: View(style, u, p) == View(style, t, p) {
      SameViewsSameList(style, t, u, m.files);
    }
  }
}
