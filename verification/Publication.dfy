/** From a filled directory to a published, delivered, recorded backup. */
module Publication {
  import opened Text
  import opened Trees
  import opened Paths
  import opened StackScope
  import opened Listing
  import opened Manifests
  import opened Capture
  import opened Delivery
  import opened Hosts
  import opened GiteaBackup
  import opened Phases
  import opened CaptureRun
  import opened Retention
  import opened ImageTags

  // ----------------------------------------------------------- what is there

  /** The active stacks are those found below `files`. */
  ghost predicate DiscoveredIn(cfg: Config, files: Tree, active: seq<string>)
  {
    && Canonical(active) && active != [] && IsDirAt(files, STACKS)
    && forall n :: n in active <==> Active(cfg.switches, Lookup(files, STACKS).value.kids, n)
  }

  lemma ComposeKept(cfg: Config, files: Tree, active: seq<string>, name: string, images: bool,
                    archives: seq<ImageArchive>, t: Tree)
    requires DiscoveredIn(cfg, files, active) && name in active && t.Dir? && DEFINITIONS in t.kids
    requires DefinitionKept(files, name, images, archives, t.kids[DEFINITIONS])
    ensures HasCompose(t, name)
  {
    var n: Name := name;
    LookupAppend(files, STACKS, [n]);
    OneLevel(Lookup(files, STACKS).value, n);
    LookupAppend(t, [DEFINITIONS], [n]);
    OneLevel(t, DEFINITIONS);
    LookupAppend(t, [DEFINITIONS, n], [COMPOSE]);
    assert [DEFINITIONS] + [n] == [DEFINITIONS, n] && [DEFINITIONS, n] + [COMPOSE] == [DEFINITIONS, n, COMPOSE];
    var def := Lookup(t, [DEFINITIONS, n]).value;
    OneLevel(def, COMPOSE);
    var src := Lookup(files, STACKS + [n]).value;
    assert def == Shown(src, images, archives) && COMPOSE in src.kids && src.kids[COMPOSE].File?;
    assert def.kids[COMPOSE] == Shown(src.kids[COMPOSE], images, archives);
  }

  lemma EntryPresent(t: Tree, n: Name)
    requires t.Dir? && n in t.kids
    ensures Lookup(t, [n]) == Some(t.kids[n])
  {
    OneLevel(t, n);
  }

  lemma DefinitionPresent(t: Tree, files: Tree, name: string, images: bool, archives: seq<ImageArchive>)
    requires t.Dir? && DEFINITIONS in t.kids && DefinitionKept(files, name, images, archives, t.kids[DEFINITIONS])
    ensures Lookup(t, [DEFINITIONS, name]).Some?
  {
    var n: Name := name;
    OneLevel(t, DEFINITIONS);
    LookupAppend(t, [DEFINITIONS], [n]);
    assert [DEFINITIONS] + [n] == [DEFINITIONS, n];
  }

  lemma ServicePresent(job: Job, cuts: Cuts, whole: Whole, t: Tree, stack: string)
    requires t.Dir? && ServicesCaptured(job, cuts, whole, t.kids) && whole.gitea && stack in job.active
    ensures AllPresent(t, ServicePaths(t, stack))
  {
    hide PartCaptured, Lookup;
    if stack == KEYCLOAK { EntryPresent(t, KEYCLOAK_DUMP); }
    else if stack == GITEA {
      EntryPresent(t, GITEA_DUMP);
      EntryPresent(t, GiteaTarget(job.cfg, cuts.gitea.files));
      OneLevel(t, GITEA_STACK);
    }
    else if stack == HARBOR { EntryPresent(t, HARBOR_DUMP); EntryPresent(t, HARBOR_DATA); }
    else if stack == OPENBAO { EntryPresent(t, OPENBAO_SNAP); }
  }

  lemma {:induction false} StacksPresent(job: Job, cuts: Cuts, whole: Whole, archives: seq<ImageArchive>, t: Tree, k: nat)
    requires t.Dir? && ServicesCaptured(job, cuts, whole, t.kids) && whole.gitea && ValidNames(job.active)
    requires DefinitionsCaptured(job.active, job.images, archives, cuts.stacks, t.kids)
    requires k <= |job.active|
    ensures AllPresent(t, StacksPaths(t, job.active[..k]))
  {
    hide ServicesCaptured, Lookup, ServicePaths;
    if k > 0 {
      StacksPresent(job, cuts, whole, archives, t, k - 1);
      assert job.active[..k][..k - 1] == job.active[..k - 1];
      ServicePresent(job, cuts, whole, t, job.active[k - 1]);
      DefinitionPresent(t, cuts.stacks.files, job.active[k - 1], job.images, archives);
    }
  }

  lemma RequiredPresent(job: Job, cuts: Cuts, whole: Whole, revision: string, k: Stacks, t: Tree)
    requires t.Dir? && ServicesCaptured(job, cuts, whole, t.kids) && whole.gitea && ValidNames(job.active)
    requires DefinitionsCaptured(job.active, job.images, k.archives, cuts.stacks, t.kids)
    requires BundleHeld(job.images, revision, t.kids) && ImagesHeld(job, k, t.kids)
    ensures AllPresent(t, RequiredPaths(t, job.active, job.images))
  {
    hide ServicesCaptured, DefinitionsCaptured, Lookup, ArchiveOf;
    StacksPresent(job, cuts, whole, k.archives, t, |job.active|);
    assert job.active[..|job.active|] == job.active;
    if job.images {
      EntryPresent(t, OFFLINE_TAR);
      EntryPresent(t, BUNDLE);
    }
  }

  // -------------------------------------------------------- the own manifest

  /** Everything capture established, when no step of it failed. */
  ghost predicate Sensible(job: Job, cuts: Cuts, whole: Whole, s: Services, k: Stacks, kids: map<Name, Tree>, now: Time)
  {
    && ServicesCaptured(job, cuts, whole, kids) && whole.gitea
    && DefinitionsCaptured(job.active, job.images, k.archives, cuts.stacks, kids)
    && BundleHeld(job.images, s.revision, kids) && ImagesHeld(job, k, kids)
    && BoundariesFor(job.active, s.boundaries) && AllComplete(k.archives)
    && DiscoveredIn(job.cfg, cuts.stacks.files, job.active) && ValidID(job.id)
    && (exists from :: from > 0 && Within(s.boundaries, from, now))
  }

  function OwnManifest(job: Job, s: Services, k: Stacks, files: seq<ManifestFile>, t: Tree, createdAt: Time,
                       hostname: string): Manifest
    requires ValidNames(job.active)
  {
    Manifest(CURRENT_VERSION, job.id, createdAt, hostname, s.revision, job.images, k.images, k.archives,
      Some(job.active), true, job.images, AllArtifacts(t, job.active, job.images, true),
      if |s.boundaries| > 0 then SERVICE_BOUNDARIES else LOGICAL_ONLINE, s.boundaries, true, files)
  }

  /** The strings of a run's own manifest, other than the names of its files. */
  predicate OwnStrings(job: Job, s: Services, k: Stacks)
  {
    && TextOrNothing(job.codec, s.revision) && StacksAreText(job.codec, k)
    && (if job.images then ArchiveOf(job.id, k.images, k.archives) else k.archives == [])
    && BoundariesFor(job.active, s.boundaries) && ValidNames(job.active)
  }

  lemma AsciiBoth(a: string, b: string)
    requires Ascii(a) && Ascii(b)
    ensures Ascii(a + b)
  {
  }

  lemma KnownIsAscii(how: string)
    requires KnownMethod(how)
    ensures Ascii(how)
  {
    MethodsAreAscii();
    hide Ascii, QUIESCED, ALREADY_STOPPED, BY_SNAPSHOT, BY_COPY;
    AsciiBoth(QUIESCED, BY_SNAPSHOT);
    AsciiBoth(QUIESCED, BY_COPY);
    AsciiBoth(ALREADY_STOPPED, BY_SNAPSHOT);
    AsciiBoth(ALREADY_STOPPED, BY_COPY);
  }

  lemma MethodsAreAscii()
    ensures Ascii(QUIESCED) && Ascii(ALREADY_STOPPED) && Ascii(BY_SNAPSHOT) && Ascii(BY_COPY)
  {
  }

  lemma ValidNameIsAscii(name: string)
    requires ValidName(name)
    ensures Ascii(name)
  {
    forall i | 0 <= i < |name| ensures name[i] < '\U{0080}' {
      assert NameChar(name[i]);
    }
  }

  lemma TagIsAscii(id: Stamp, n: nat)
    ensures Ascii(TagName(id, n))
  {
    TagMinted(id, n);
    PaddedAreNumerals(n);
    hide Padded;
    assert Ascii(TagPrefix(id)) by {
      assert Ascii("admin-node-backup.local/") && Ascii(":image-");
    }
    forall i | 0 <= i < |Padded(n)| ensures Padded(n)[i] < '\U{0080}' {
      assert Numeral(Padded(n)[i]);
    }
  }

  /** A required path is ASCII. */
  lemma RequiredIsAscii(t: Tree, active: seq<string>, images: bool, p: Path)
    requires ValidNames(active) && p in RequiredPaths(t, active, images)
    ensures p != [] && Ascii(Join(p, '/'))
  {
    ImageNamesAreAscii();
    hide Ascii;
    if p != [OFFLINE_TAR] && p != [BUNDLE] {
      StacksPathIsAscii(t, active, p);
    }
  }

  lemma {:induction false} StacksPathIsAscii(t: Tree, active: seq<string>, p: Path)
    requires ValidNames(active) && p in StacksPaths(t, active)
    ensures p != [] && Ascii(Join(p, '/'))
    decreases |active|
  {
    var n := |active| - 1;
    if p in StacksPaths(t, active[..n]) {
      StacksPathIsAscii(t, active[..n], p);
    } else {
      assert p in StackPaths(t, active[n]);
      StackPathIsAscii(t, active[n], p);
    }
  }

  lemma StackPathIsAscii(t: Tree, stack: string, p: Path)
    requires ValidName(stack) && p in StackPaths(t, stack)
    ensures p != [] && Ascii(Join(p, '/'))
  {
    ValidNameIsAscii(stack);
    ValidNameIsEntry(stack);
    EntryNamesAreAscii();
    hide Ascii, ValidName, IsDirAt;
    if |p| == 2 {
      TwoNames(DEFINITIONS, stack);
      AsciiBoth(DEFINITIONS + "/", stack);
    } else {
      assert p in ServicePaths(t, stack);
      ServicePathIsAscii(t, stack, p);
    }
  }

  lemma ServicePathIsAscii(t: Tree, stack: string, p: Path)
    requires p in ServicePaths(t, stack)
    ensures p != [] && Ascii(Join(p, '/'))
  {
    EntryNamesAreAscii();
    hide Ascii, IsDirAt;
    assert |p| == 1 && Join(p, '/') == p[0];
  }

  lemma TwoNames(a: Name, b: Name)
    ensures Join([a, b], '/') == a + "/" + b
  {
    assert [a, b][1..] == [b];
  }

  lemma EntryNamesAreAscii()
    ensures Ascii(DEFINITIONS + "/")
    ensures Ascii(KEYCLOAK_DUMP) && Ascii(GITEA_DUMP) && Ascii(GITEA_STACK) && Ascii(GITEA_DATA)
    ensures Ascii(HARBOR_DUMP) && Ascii(HARBOR_DATA) && Ascii(OPENBAO_SNAP)
  {
    assert Ascii(DEFINITIONS + "/") by { assert Ascii(DEFINITIONS) && Ascii("/"); }
    DumpNamesAreAscii();
    DataNamesAreAscii();
  }

  lemma DumpNamesAreAscii()
    ensures Ascii(KEYCLOAK_DUMP) && Ascii(GITEA_DUMP) && Ascii(HARBOR_DUMP)
  {
  }

  lemma DataNamesAreAscii()
    ensures Ascii(GITEA_STACK) && Ascii(GITEA_DATA) && Ascii(HARBOR_DATA) && Ascii(OPENBAO_SNAP)
  {
  }

  lemma StatusesAreText(c: Codec)
    requires Lossless(c)
    ensures c.text(PRODUCED) && c.text(FAILED) && c.text(DISABLED)
  {
    assert Ascii(PRODUCED) && Ascii(FAILED) && Ascii(DISABLED);
  }

  lemma ImageNamesAreAscii()
    ensures Ascii(OFFLINE_TAR) && Ascii(BUNDLE)
  {
  }

  lemma ArtifactsAreText(c: Codec, t: Tree, active: seq<string>, images: bool, produced: bool)
    requires Lossless(c) && ValidNames(active)
    ensures forall a :: a in AllArtifacts(t, active, images, produced) ==> c.text(a.path) && c.text(a.status)
  {
    hide RequiredPaths, Lookup, Ascii;
    StatusesAreText(c);
    ImageNamesAreAscii();
    var ps := RequiredPaths(t, active, images);
    var all := AllArtifacts(t, active, images, produced);
    forall i | 0 <= i < |all| ensures c.text(all[i].path) && c.text(all[i].status) {
      if i < |ps| {
        assert ps[i] in ps;
        RequiredIsAscii(t, active, images, ps[i]);
      }
    }
  }

  /** A run's own manifest is text exactly if the names of its files are. */
  lemma OwnIsTextExactly(job: Job, s: Services, k: Stacks, files: seq<ManifestFile>, t: Tree, createdAt: Time, hostname: string)
    requires Lossless(job.codec) && OwnStrings(job, s, k) && job.codec.text(hostname)
    requires IsListOf(Style(job.codec.hash, false), t, files)
    ensures Textual(job.codec, OwnManifest(job, s, k, files, t, createdAt, hostname)) <==> Legible(job.codec, t)
  {
    hide AllArtifacts, IsListOf, Legible, KnownMethod, TagName, Lossless, ValidNames, IDsAreText;
    var c := job.codec;
    ListIsTextExactly(c, t, files);
    ArtifactsAreText(c, t, job.active, job.images, true);
    NothingIsText(c);
    OwnWordsAreText(job);
    BoundariesAreText(job, s);
    ArchivesAreText(job, k);
  }

  lemma OwnWordsAreText(job: Job)
    requires Lossless(job.codec) && ValidNames(job.active)
    ensures job.codec.text(SERVICE_BOUNDARIES) && job.codec.text(LOGICAL_ONLINE) && job.codec.text(job.id)
    ensures forall n :: n in job.active ==> job.codec.text(n)
  {
    assert Ascii(SERVICE_BOUNDARIES) && Ascii(LOGICAL_ONLINE);
    forall n | n in job.active ensures job.codec.text(n) {
      ValidNameIsAscii(n);
    }
  }

  lemma BoundariesAreText(job: Job, s: Services)
    requires Lossless(job.codec) && BoundariesFor(job.active, s.boundaries)
    ensures forall b :: b in s.boundaries ==> job.codec.text(b.service) && job.codec.text(b.how)
  {
    hide KnownMethod;
    assert Ascii(GITEA);
    forall b | b in s.boundaries ensures job.codec.text(b.service) && job.codec.text(b.how) {
      KnownIsAscii(b.how);
    }
  }

  lemma ArchivesAreText(job: Job, k: Stacks)
    requires Lossless(job.codec) && StacksAreText(job.codec, k)
    requires if job.images then ArchiveOf(job.id, k.images, k.archives) else k.archives == []
    ensures forall a :: a in k.archives ==> job.codec.text(a.source) && job.codec.text(a.tag) && job.codec.text(a.imageID)
  {
    hide TagName;
    NothingIsText(job.codec);
    forall a | a in k.archives ensures job.codec.text(a.source) && job.codec.text(a.tag) && job.codec.text(a.imageID) {
      var i :| 0 <= i < |k.archives| && k.archives[i] == a;
      TagIsAscii(job.id, i + 1);
      assert k.images[i] in k.images;
    }
  }

  lemma ValidIDIsGood(id: string)
    requires ValidID(id)
    ensures GoodID(id)
  {
    assert '/' !in id;
    NameIsBase(id);
  }

  lemma GoodTimes(s: Services, from: Time, now: Time, createdAt: Time)
    requires from > 0 && Within(s.boundaries, from, now) && now <= createdAt
    requires forall i :: 0 <= i < |s.boundaries| ==> s.boundaries[i].service == GITEA && KnownMethod(s.boundaries[i].how)
    ensures forall i :: 0 <= i < |s.boundaries| ==> GoodBoundary(s.boundaries[i], createdAt)
  {
    hide KnownMethod;
  }

  /** What capture without a failing step leaves passes the check before writing. */
  lemma SensibleArtifacts(job: Job, cuts: Cuts, whole: Whole, s: Services, k: Stacks, t: Tree, now: Time)
    requires t.Dir? && Sensible(job, cuts, whole, s, k, t.kids, now) && ValidNames(job.active)
    ensures GoodArtifacts(AllArtifacts(t, job.active, job.images, true), true, t)
  {
    hide ServicesCaptured, DefinitionsCaptured, Lookup, ImagesHeld, AllArtifacts, GoodArtifacts, RequiredPaths, Active;
    RequiredPresent(job, cuts, whole, s.revision, k, t);
    ExpectedArtifactsGood(t, job.active, job.images, true);
  }

  lemma {:induction false} PlainListable(t: Tree)
    requires t.Dir? && AllPlain(t.kids)
    ensures Listable(t)
  {
    forall n | n in t.kids ensures EntryListable(t.kids[n], n) {
      if t.kids[n].Dir? {
        PlainListable(t.kids[n]);
      }
    }
  }

  /** Self-acceptance: what a run without a failing step assembles is accepted by its
      own verification, and as an offline recovery point if it has images, if and only
      if every captured file has a name that is text: the encoder replaces all others,
      and the list no longer fits. */
  lemma OwnManifestAccepted(job: Job, cuts: Cuts, whole: Whole, s: Services, k: Stacks, t: Tree,
                            files: seq<ManifestFile>, now: Time, createdAt: Time, hostname: string)
    requires Lossless(job.codec) && t.Dir? && MANIFEST !in t.kids && Listable(t)
    requires Sensible(job, cuts, whole, s, k, t.kids, now) && now <= createdAt
    requires IsListOf(Style(job.codec.hash, false), t, files)
    requires OwnStrings(job, s, k) && job.codec.text(hostname)
    ensures var m := OwnManifest(job, s, k, files, t, createdAt, hostname);
      var u := WithManifest(t, job.codec.encode(m));
      && (Accepted(job.codec, u) <==> Legible(job.codec, t))
      && (Legible(job.codec, t) ==> Accepted(job.codec, u) && ReadManifest(job.codec, u) == Some(m) && (job.images ==> Scheduled(m, u)))
  {
    hide Accepted, Sensible, Listable, IsListOf, Scheduled, AllArtifacts, Legible;
    var m := OwnManifest(job, s, k, files, t, createdAt, hostname);
    var u := WithManifest(t, job.codec.encode(m));
    OwnIsTextExactly(job, s, k, files, t, createdAt, hostname);
    NoManifestThere(t);
    LegibleIgnoresManifest(job.codec, t, job.codec.encode(m));
    if Legible(job.codec, t) {
      LegibleAccepted(job, cuts, whole, s, k, t, files, now, createdAt, hostname);
    }
    if Accepted(job.codec, u) {
      AcceptedIsLegible(job.codec, u);
    }
  }

  lemma NoManifestThere(t: Tree)
    requires t.Dir? && MANIFEST !in t.kids
    ensures !IsDirAt(t, [MANIFEST])
  {
  }

  lemma LegibleAccepted(job: Job, cuts: Cuts, whole: Whole, s: Services, k: Stacks, t: Tree,
                        files: seq<ManifestFile>, now: Time, createdAt: Time, hostname: string)
    requires Lossless(job.codec) && t.Dir? && MANIFEST !in t.kids && Listable(t)
    requires Sensible(job, cuts, whole, s, k, t.kids, now) && now <= createdAt
    requires IsListOf(Style(job.codec.hash, false), t, files)
    requires ValidNames(job.active) && Textual(job.codec, OwnManifest(job, s, k, files, t, createdAt, hostname))
    ensures var m := OwnManifest(job, s, k, files, t, createdAt, hostname);
      var u := WithManifest(t, job.codec.encode(m));
      Accepted(job.codec, u) && ReadManifest(job.codec, u) == Some(m) && (job.images ==> Scheduled(m, u))
  {
    hide ServicesCaptured, Lookup, KnownMethod, ArchiveOf, Sound, IsListOf, Listable, AllArtifacts, Blank, Textual, Lossless;
    var m := OwnManifest(job, s, k, files, t, createdAt, hostname);
    RequiredPresent(job, cuts, whole, s.revision, k, t);
    forall i | 0 <= i < |job.active| ensures HasCompose(t, job.active[i]) {
      ComposeKept(job.cfg, cuts.stacks.files, job.active, job.active[i], job.images, k.archives, t);
    }
    var from :| from > 0 && Within(s.boundaries, from, now);
    GoodTimes(s, from, now, createdAt);
    ValidIDIsGood(job.id);
    OwnOffline(job, s, k, t, files, createdAt, hostname);
    AssembledAccepted(job.codec, t, job.active, job.images, m);
    if job.images {
      var u := WithManifest(t, job.codec.encode(m));
      EntryPresent(u, BUNDLE);
      EntryPresent(u, DEFINITIONS);
    }
  }

  lemma OwnOffline(job: Job, s: Services, k: Stacks, t: Tree, files: seq<ManifestFile>, createdAt: Time,
                   hostname: string)
    requires t.Dir? && ImagesHeld(job, k, t.kids) && AllComplete(k.archives) && ValidNames(job.active)
    ensures GoodOffline(OwnManifest(job, s, k, files, t, createdAt, hostname), t)
  {
    hide Lookup, ArchiveOf, CompleteArchive, AllArtifacts;
    if job.images {
      ArchivesDistinct(job.id, k.images, k.archives);
      EntryPresent(t, OFFLINE_TAR);
      assert |k.archives| == |k.images| by { SameNumber(job.id, k.images, k.archives); }
    }
  }

  lemma SameNumber(id: string, images: seq<string>, archives: seq<ImageArchive>)
    requires ArchiveOf(id, images, archives)
    ensures |archives| == |images|
  {
  }

  // ------------------------------------------------------ what a backup shows

  /** Every captured component of `t` shows its state. */
  predicate HoldsCapture(job: Job, cuts: Cuts, whole: Whole, archives: seq<ImageArchive>, t: Tree)
  {
    && t.Dir? && ServicesCaptured(job, cuts, whole, t.kids)
    && DefinitionsCaptured(job.active, job.images, archives, cuts.stacks, t.kids)
    && (job.images ==> OFFLINE_TAR in t.kids && t.kids[OFFLINE_TAR].File?)
  }

  /** The manifest file is no part of the capture. */
  lemma ManifestIsNoCapture(job: Job, cuts: Cuts, whole: Whole, archives: seq<ImageArchive>, t: Tree, u: Tree)
    requires HoldsCapture(job, cuts, whole, archives, t) && u.Dir? && Others({MANIFEST}, t.kids, u.kids)
    ensures HoldsCapture(job, cuts, whole, archives, u)
  {
    hide Lookup, BundleHeld, FirstCaptured, SecondCaptured;
    StepKeeps(job, cuts, whole, "", {MANIFEST}, t.kids, u.kids);
  }

  /** Images and definitions leave what the services put down. */
  lemma ServicesKept(job: Job, cuts: Cuts, whole: Whole, revision: string, a: map<Name, Tree>, b: map<Name, Tree>)
    requires Others(STACK_ENTRIES, a, b)
    ensures ServicesCaptured(job, cuts, whole, a) ==> ServicesCaptured(job, cuts, whole, b)
    ensures BundleHeld(job.images, revision, a) ==> BundleHeld(job.images, revision, b)
  {
    hide FirstCaptured, SecondCaptured, BundleHeld, Others;
    StepKeeps(job, cuts, whole, revision, STACK_ENTRIES, a, b);
  }

  lemma NoManifestYet(a: map<Name, Tree>, b: map<Name, Tree>)
    requires Others(SERVICE_ENTRIES, map[], a) && Others(STACK_ENTRIES, a, b)
    ensures MANIFEST !in b
  {
  }
}
