/** All capture steps of one run, in order, over an empty unpublished directory. */
module CaptureRun {
  import opened Text
  import opened Trees
  import opened StackScope
  import opened Manifests
  import opened Capture
  import opened Hosts
  import opened GiteaBackup
  import opened Phases

  /** The states of the node that the parts of a backup show: of the whole node when
      the run began, for the definitions; for Gitea and Harbor one for the dump and one
      for the files. The two flags say whether files were taken from a Btrfs snapshot,
      which is of one moment and keeps all modes. */
  datatype Cuts = Cuts(
    stacks: NodeState, keycloak: NodeState, giteaDump: NodeState, gitea: NodeState, giteaSnap: bool,
    harborDump: NodeState, harbor: NodeState, harborSnap: bool, vault: NodeState)

  /** Whether Gitea and Harbor could not write while they were captured. */
  datatype Whole = Whole(gitea: bool, harbor: bool)

  /** What the service steps leave: for each active service its state. Files that a
      service wrote to while they were copied one by one are not known. */
  predicate ServicesCaptured(job: Job, cuts: Cuts, whole: Whole, kids: map<Name, Tree>)
  {
    FirstCaptured(job, cuts, whole, kids) && SecondCaptured(job, cuts, whole, kids)
  }

  predicate FirstCaptured(job: Job, cuts: Cuts, whole: Whole, kids: map<Name, Tree>)
  {
    && (KEYCLOAK in job.active ==> DumpIn(job.tools, cuts.keycloak, kids, KEYCLOAK_DUMP, KEYCLOAK_DB))
    && (GITEA in job.active ==>
         GiteaCaptured(job.cfg, job.tools, whole.gitea, cuts.giteaSnap, cuts.giteaDump, cuts.gitea, kids))
  }

  predicate SecondCaptured(job: Job, cuts: Cuts, whole: Whole, kids: map<Name, Tree>)
  {
    && (HARBOR in job.active ==>
         HarborCaptured(job.tools, whole.harbor, cuts.harborSnap, cuts.harborDump, cuts.harbor, kids))
    && (OPENBAO in job.active ==> VaultCaptured(job.tools, cuts.vault, kids))
  }

  /** These states are no inventions: the node was in each of them between the two
      histories. Dump and files of a service that could not write are of one state, in
      Gitea's with Gitea down, in Harbor's with Harbor read-only. */
  ghost predicate AllPassed(job: Job, before: seq<Moment>, after: seq<Moment>, cuts: Cuts, whole: Whole)
  {
    && Passed(before, after, cuts.stacks, false, false)
    && FirstPassed(job, before, after, cuts, whole) && SecondPassed(job, before, after, cuts, whole)
  }

  ghost predicate FirstPassed(job: Job, before: seq<Moment>, after: seq<Moment>, cuts: Cuts, whole: Whole)
  {
    && (KEYCLOAK in job.active ==> Passed(before, after, cuts.keycloak, false, false))
    && (GITEA in job.active ==> GiteaPassed(before, after, whole.gitea, cuts.giteaSnap, cuts.giteaDump, cuts.gitea))
  }

  ghost predicate SecondPassed(job: Job, before: seq<Moment>, after: seq<Moment>, cuts: Cuts, whole: Whole)
  {
    && (HARBOR in job.active ==> HarborPassed(before, after, whole.harbor, cuts.harborSnap, cuts.harborDump, cuts.harbor))
    && (OPENBAO in job.active ==> Passed(before, after, cuts.vault, false, false))
  }

  lemma FirstPassedWithin(job: Job, a: seq<Moment>, b: seq<Moment>, c: seq<Moment>, d: seq<Moment>, cuts: Cuts, whole: Whole)
    requires FirstPassed(job, b, c, cuts, whole) && |a| <= |b| && c <= d
    ensures FirstPassed(job, a, d, cuts, whole)
  {
    hide Passed, GiteaPassed;
    if KEYCLOAK in job.active { PassedWithin(a, b, c, d, cuts.keycloak, false, false); }
    if GITEA in job.active { GiteaPassedWithin(a, b, c, d, whole.gitea, cuts.giteaSnap, cuts.giteaDump, cuts.gitea); }
  }

  lemma SecondPassedWithin(job: Job, a: seq<Moment>, b: seq<Moment>, c: seq<Moment>, d: seq<Moment>, cuts: Cuts, whole: Whole)
    requires SecondPassed(job, b, c, cuts, whole) && |a| <= |b| && c <= d
    ensures SecondPassed(job, a, d, cuts, whole)
  {
    hide Passed, HarborPassed;
    if HARBOR in job.active { HarborPassedWithin(a, b, c, d, whole.harbor, cuts.harborSnap, cuts.harborDump, cuts.harbor); }
    if OPENBAO in job.active { PassedWithin(a, b, c, d, cuts.vault, false, false); }
  }

  /** Whether Gitea could not write can be read off its restarts: one if it was running. */
  predicate GiteaCounted(job: Job, gitea: bool, running: set<string>, before: nat, after: nat)
  {
    GITEA in job.active ==> (gitea <==> after == before + if "gitea" in running then 1 else 0)
  }

  /** Where snapshots are required they were taken. */
  predicate SnapshotsTaken(job: Job, cuts: Cuts)
  {
    job.cfg.requireBtrfs ==> (GITEA in job.active ==> cuts.giteaSnap) && (HARBOR in job.active ==> cuts.harborSnap)
  }

  predicate BundleHeld(images: bool, revision: string, kids: map<Name, Tree>)
  {
    images ==> !Blank(revision) && BUNDLE in kids && kids[BUNDLE].File?
  }

  /** The boundaries a run declares: one for Gitea if it is active, else none. */
  predicate BoundariesFor(active: seq<string>, boundaries: seq<Boundary>)
  {
    && |boundaries| == (if GITEA in active then 1 else 0)
    && forall i :: 0 <= i < |boundaries| ==> boundaries[i].service == GITEA && KnownMethod(boundaries[i].how)
  }

  predicate Within(boundaries: seq<Boundary>, from: Time, to: Time)
  {
    forall i :: 0 <= i < |boundaries| ==> from <= boundaries[i].startedAt <= boundaries[i].completedAt <= to
  }

  /** What the active services need for their capture to succeed. */
  ghost predicate ServicesReady(job: Job, btrfs: bool, node: NodeState, running: set<string>)
  {
    FirstReady(job, btrfs, node, running) && SecondReady(job, btrfs, node, running)
  }

  predicate FirstReady(job: Job, btrfs: bool, node: NodeState, running: set<string>)
  {
    && (KEYCLOAK in job.active ==> KEYCLOAK_DB in node.dbs)
    && (GITEA in job.active ==> GiteaReady(job.cfg, btrfs, node, running))
  }

  ghost predicate SecondReady(job: Job, btrfs: bool, node: NodeState, running: set<string>)
  {
    && (HARBOR in job.active ==> HarborReachable(job.cfg, running) && HarborReady(job.cfg, btrfs, node))
    && (OPENBAO in job.active ==> job.cfg.baoToken && NeverEmpty(job.tools))
  }

  lemma StillReady(job: Job, btrfs: bool, a: NodeState, b: NodeState, running: set<string>)
    requires ServicesOnly(job.cfg, a, b)
    ensures FirstReady(job, btrfs, a, running) ==> FirstReady(job, btrfs, b, running)
    ensures SecondReady(job, btrfs, a, running) ==> SecondReady(job, btrfs, b, running)
  {
    StaysReady(job.cfg, btrfs, a, b);
    GiteaStaysReady(job.cfg, btrfs, a, b, running);
    hide HarborReady, GiteaReady, SameShape, NeverEmpty, Lookup;
  }

  lemma GiteaStaysReady(cfg: Config, btrfs: bool, a: NodeState, b: NodeState, running: set<string>)
    requires ServicesOnly(cfg, a, b)
    ensures GiteaReady(cfg, btrfs, a, running) ==> GiteaReady(cfg, btrfs, b, running)
  {
    hide Lookup, Plain, PartsPlain;
  }

  // ------------------------------------------------------------ single steps

  /** `git rev-parse HEAD`, trimmed; empty when it fails. */
  method RepoRevision(h: Host, codec: Codec) returns (revision: string)
    modifies h`faults
    ensures h.faults >= old(h.faults)
    ensures revision == "" || (revision == h.offline.head && !Blank(revision))
    ensures TextOrNothing(codec, revision)
    ensures h.faults == old(h.faults) && codec.text(h.offline.head) && !Blank(h.offline.head) ==> revision == h.offline.head
  {
    var ok := h.Attempt();
    var answer := h.offline.head;
    revision := if ok && !Blank(answer) && codec.text(answer) then answer else "";
  }

  /** A revision to name and nothing changed against it, where images are asked for. */
  predicate BundleReady(job: Job, offline: Offline)
  {
    job.images ==> offline.clean && !Blank(offline.head) && job.codec.text(offline.head)
  }

  /** A run with images also keeps the exact revision of the repository. */
  method BundleStep(h: Host, job: Job) returns (ok: bool, revision: string)
    requires h.partial.Some?
    modifies h`partial, h`faults
    ensures h.partial.Some? && Others({BUNDLE}, old(h.partial.value), h.partial.value)
    ensures h.faults >= old(h.faults)
    ensures ok ==> BundleHeld(job.images, revision, h.partial.value)
    ensures ok && job.images ==> revision == h.offline.head && h.offline.clean
    ensures !job.images ==> ok && h.partial == old(h.partial)
    ensures TextOrNothing(job.codec, revision)
    ensures h.faults == old(h.faults) && BundleReady(job, h.offline) ==> ok
    ensures ok && AllPlain(old(h.partial.value)) ==> AllPlain(h.partial.value)
  {
    revision := RepoRevision(h, job.codec);
    ok := true;
    if job.images {
      if revision == "" {
        return false, revision;
      }
      var asked := h.Attempt();
      if !asked || !h.offline.clean {
        return false, revision;
      }
      ok := h.Attempt();
      if !ok {
        h.Spoil(BUNDLE);
        return;
      }
      var bundle: Data := *;
      h.Place(BUNDLE, File(bundle, MODE_0600));
    }
  }

  method KeycloakStep(h: Host, job: Job) returns (ok: bool, ghost cut: NodeState)
    requires h.partial.Some? && GoodLayout(job.cfg) && StrictlySorted(job.active)
    modifies h`partial, h`faults, h`node, h`trail
    ensures h.partial.Some? && Others({KEYCLOAK_DUMP}, old(h.partial.value), h.partial.value)
    ensures h.faults >= old(h.faults)
    ensures ServicesOnly(job.cfg, old(h.node), h.node) && old(h.trail) <= h.trail
    ensures ok && KEYCLOAK in job.active ==>
      DumpIn(job.tools, cut, h.partial.value, KEYCLOAK_DUMP, KEYCLOAK_DB) && Passed(old(h.trail), h.trail, cut, false, false)
    ensures h.faults == old(h.faults) && (KEYCLOAK in job.active ==> KEYCLOAK_DB in old(h.node).dbs) ==> ok
    ensures ok && AllPlain(old(h.partial.value)) ==> AllPlain(h.partial.value)
  {
    hide AllPlain, Passed, ServicesOnly;
    ContainsIsMembership(job.active, KEYCLOAK);
    ServicesOnlyNot(job.cfg, h.node);
    ok, cut := true, h.node;
    ghost var before := h.partial.value;
    if Contains(job.active, KEYCLOAK) {
      ok, cut := BackupKeycloak(h, job);
      if ok && AllPlain(before) {
        StillPlain({KEYCLOAK_DUMP}, before, h.partial.value);
      }
    }
  }

  /** `right` tells whether the container listing was right about Gitea. */
  method GiteaStep(h: Host, job: Job) returns (ok: bool, boundaries: seq<Boundary>, ghost snap: bool,
                   ghost dump: NodeState, ghost cut: NodeState, ghost right: bool)
    requires GoodLayout(job.cfg) && h.partial.Some? && GITEA_STACK !in h.partial.value && StrictlySorted(job.active)
    modifies h`node, h`running, h`partial, h`faults, h`clock, h`restarts, h`trail
    ensures h.partial.Some? && Others({GITEA_DUMP, GITEA_STACK, GITEA_DATA}, old(h.partial.value), h.partial.value)
    ensures h.faults >= old(h.faults)
    ensures ServicesOnly(job.cfg, old(h.node), h.node) && old(h.trail) <= h.trail
    ensures old(h.restarts) <= h.restarts <= old(h.restarts) + 1
    ensures ok || h.faults == old(h.faults) ==> h.running == old(h.running)
    ensures ok && GITEA in job.active ==> GiteaCaptured(job.cfg, job.tools, right, snap, dump, cut, h.partial.value)
    ensures ok && GITEA in job.active ==> GiteaPassed(old(h.trail), h.trail, right, snap, dump, cut)
    ensures ok && GITEA in job.active && job.cfg.requireBtrfs ==> snap
    ensures GiteaCounted(job, right, old(h.running), old(h.restarts), h.restarts) || !ok
    ensures ok ==> BoundariesFor(job.active, boundaries)
    ensures h.faults == old(h.faults) ==> old(h.clock) <= h.clock
    ensures ok && h.faults == old(h.faults) ==> right && Within(boundaries, old(h.clock), h.clock)
    ensures h.faults == old(h.faults) && (GITEA in job.active ==> GiteaReady(job.cfg, h.btrfs, old(h.node), old(h.running))) ==>
      ok && (AllPlain(old(h.partial.value)) ==> AllPlain(h.partial.value))
  {
    hide Lookup, PlainDirAt, KnownMethod, ServicesOnly, GiteaCaptured, GiteaPassed, Others, GoodLayout, GiteaReady, AllPlain;
    ContainsIsMembership(job.active, GITEA);
    ServicesOnlyNot(job.cfg, h.node);
    ok, boundaries, snap, dump, cut, right := true, [], false, h.node, h.node, true;
    ghost var before := h.partial.value;
    ghost var entries := {GITEA_DUMP, GITEA_STACK, GITEA_DATA};
    ghost var target := GiteaTarget(job.cfg, h.node.files);
    if Contains(job.active, GITEA) {
      var boundary;
      ghost var wasRunning;
      ghost var running := h.running;
      ok, boundary, snap, dump, cut, wasRunning := BackupGitea(h, job.cfg, job.tools);
      right := wasRunning || "gitea" !in running;
      boundaries := [boundary];
      TouchedTogether(entries, before, h.partial.value, h.partial.value, {GITEA_DUMP, target}, {});
      if ok && right && GiteaReady(job.cfg, h.btrfs, old(h.node), running) && AllPlain(before) {
        GiteaPlain(job, h.btrfs, snap, old(h.node), dump, cut, running, before, h.partial.value);
      }
    } else {
      TouchedTogether(entries, before, before, before, {}, {});
    }
  }

  lemma GiteaPlain(job: Job, btrfs: bool, snap: bool, start: NodeState, dump: NodeState, cut: NodeState, running: set<string>,
                   before: map<Name, Tree>, after: map<Name, Tree>)
    requires GiteaReady(job.cfg, btrfs, start, running) && ServicesOnly(job.cfg, start, cut) && AllPlain(before)
    requires GiteaCaptured(job.cfg, job.tools, true, snap, dump, cut, after)
    requires Others({GITEA_DUMP, GiteaTarget(job.cfg, start.files)}, before, after)
    ensures AllPlain(after)
  {
    hide Lookup;
    CapturedPlain(snap, Lookup(cut.files, GiteaSource(job.cfg, cut.files)).value);
    StillPlain({GITEA_DUMP, GiteaTarget(job.cfg, start.files)}, before, after);
  }

  method HarborStep(h: Host, job: Job) returns (ok: bool, ghost snap: bool, ghost dump: NodeState, ghost cut: NodeState)
    requires h.partial.Some? && HARBOR_DATA !in h.partial.value && StrictlySorted(job.active) && GoodLayout(job.cfg)
    modifies h`partial, h`faults, h`harborReadOnly, h`node, h`trail
    ensures h.partial.Some? && Others({HARBOR_DUMP, HARBOR_DATA}, old(h.partial.value), h.partial.value)
    ensures h.faults >= old(h.faults)
    ensures ServicesOnly(job.cfg, old(h.node), h.node) && old(h.trail) <= h.trail
    ensures ok && HARBOR in job.active ==>
      HarborCaptured(job.tools, HarborStill(job.cfg, old(h.harborReadOnly)), snap, dump, cut, h.partial.value)
    ensures ok && HARBOR in job.active ==>
      HarborPassed(old(h.trail), h.trail, HarborStill(job.cfg, old(h.harborReadOnly)), snap, dump, cut)
    ensures ok && HARBOR in job.active && job.cfg.requireBtrfs ==> snap
    ensures h.faults == old(h.faults) && h.harborReadOnly ==> old(h.harborReadOnly)
    ensures h.faults == old(h.faults) && SecondReady(job, h.btrfs, old(h.node), h.running) ==>
      ok && (AllPlain(old(h.partial.value)) ==> AllPlain(h.partial.value))
  {
    hide HarborReady, HarborReachable, AllPlain, Plain, ServicesOnly, HarborCaptured, HarborPassed, HarborStill;
    ContainsIsMembership(job.active, HARBOR);
    ServicesOnlyNot(job.cfg, h.node);
    ok, snap, dump, cut := true, false, h.node, h.node;
    ghost var before := h.partial.value;
    if Contains(job.active, HARBOR) {
      ok, snap, dump, cut := BackupHarbor(h, job);
      if ok && AllPlain(before) && SecondReady(job, h.btrfs, old(h.node), h.running) && h.faults == old(h.faults) {
        DumpPlain(job.tools, HarborStill(job.cfg, old(h.harborReadOnly)), snap, dump, cut, h.partial.value);
        StillPlain({HARBOR_DUMP, HARBOR_DATA}, before, h.partial.value);
      }
    }
  }

  lemma DumpPlain(tools: Tools, whole: bool, snap: bool, dump: NodeState, cut: NodeState, kids: map<Name, Tree>)
    ensures HarborCaptured(tools, whole, snap, dump, cut, kids) ==> HARBOR_DUMP in kids && Plain(kids[HARBOR_DUMP])
    ensures VaultCaptured(tools, cut, kids) ==> Plain(kids[OPENBAO_SNAP])
  {
  }

  method OpenBaoStep(h: Host, job: Job) returns (ok: bool, deferred: bool, ghost cut: NodeState)
    requires h.partial.Some? && GoodLayout(job.cfg) && StrictlySorted(job.active)
    modifies h`partial, h`faults, h`scratch, h`stuck, h`node, h`trail
    ensures h.partial.Some? && Others({OPENBAO_SNAP}, old(h.partial.value), h.partial.value)
    ensures h.faults >= old(h.faults) && h.stuck >= old(h.stuck)
    ensures ServicesOnly(job.cfg, old(h.node), h.node) && old(h.trail) <= h.trail
    ensures !deferred ==> h.scratch == old(h.scratch)
    ensures ok && OPENBAO in job.active ==>
      VaultCaptured(job.tools, cut, h.partial.value) && Passed(old(h.trail), h.trail, cut, false, false)
    ensures h.faults == old(h.faults) && SecondReady(job, h.btrfs, old(h.node), h.running) ==>
      ok && (AllPlain(old(h.partial.value)) ==> AllPlain(h.partial.value))
  {
    hide HarborReady, HarborReachable, AllPlain, Passed, ServicesOnly;
    ContainsIsMembership(job.active, OPENBAO);
    ServicesOnlyNot(job.cfg, h.node);
    ok, deferred, cut := true, false, h.node;
    ghost var before := h.partial.value;
    if Contains(job.active, OPENBAO) {
      ok, deferred, cut := BackupOpenBao(h, job);
      if ok && AllPlain(before) {
        DumpPlain(job.tools, false, false, cut, cut, h.partial.value);
        StillPlain({OPENBAO_SNAP}, before, h.partial.value);
      }
    }
  }

  // ------------------------------------------------------------ the sequence

  const SERVICE_ENTRIES: set<string> :=
    {BUNDLE, KEYCLOAK_DUMP, GITEA_DUMP, GITEA_STACK, GITEA_DATA, HARBOR_DUMP, HARBOR_DATA, OPENBAO_SNAP}

  /** A later step leaves what earlier steps put into other entries. */
  lemma StepKeeps(job: Job, cuts: Cuts, whole: Whole, revision: string, names: set<string>, a: map<Name, Tree>,
                  b: map<Name, Tree>)
    requires Others(names, a, b)
    ensures BUNDLE !in names && BundleHeld(job.images, revision, a) ==> BundleHeld(job.images, revision, b)
    ensures names !! {KEYCLOAK_DUMP, GITEA_DUMP, GITEA_STACK, GITEA_DATA} && FirstCaptured(job, cuts, whole, a) ==>
      FirstCaptured(job, cuts, whole, b)
    ensures names !! {HARBOR_DUMP, HARBOR_DATA, OPENBAO_SNAP} && SecondCaptured(job, cuts, whole, a) ==>
      SecondCaptured(job, cuts, whole, b)
  {
    hide Lookup, PartCaptured, Blank;
  }

  const FIRST_ENTRIES: set<string> := {BUNDLE, KEYCLOAK_DUMP, GITEA_DUMP, GITEA_STACK, GITEA_DATA}
  const SECOND_ENTRIES: set<string> := {HARBOR_DUMP, HARBOR_DATA, OPENBAO_SNAP}

  /** What two steps touch together. */
  lemma TouchedTogether(all: set<string>, a: map<Name, Tree>, b: map<Name, Tree>, c: map<Name, Tree>,
                        first: set<string>, second: set<string>)
    requires Others(first, a, b) && Others(second, b, c) && first <= all && second <= all
    ensures Others(all, a, c)
  {
  }

  lemma NoGiteaYet(kids: map<Name, Tree>)
    requires Others({BUNDLE, KEYCLOAK_DUMP}, map[], kids)
    ensures GITEA_STACK !in kids
  {
  }

  /** The first half touches its own entries, and the second one leaves these alone. */
  lemma FirstHalf(kids: map<Name, Tree>)
    requires Others(FIRST_ENTRIES, map[], kids)
    ensures Others(SERVICE_ENTRIES, map[], kids) && HARBOR_DATA !in kids
  {
  }

  lemma SecondHalf(job: Job, cuts: Cuts, whole: Whole, revision: string, a: map<Name, Tree>, b: map<Name, Tree>)
    requires Others(FIRST_ENTRIES, map[], a) && Others(SECOND_ENTRIES, a, b)
    ensures Others(SERVICE_ENTRIES, map[], b)
    ensures BundleHeld(job.images, revision, a) ==> BundleHeld(job.images, revision, b)
    ensures FirstCaptured(job, cuts, whole, a) ==> FirstCaptured(job, cuts, whole, b)
  {
    hide BundleHeld, FirstCaptured, SecondCaptured, Others;
    StepKeeps(job, cuts, whole, revision, SECOND_ENTRIES, a, b);
    TouchedTogether(SERVICE_ENTRIES, map[], a, b, FIRST_ENTRIES, SECOND_ENTRIES);
  }

  datatype Services = Services(revision: string, boundaries: seq<Boundary>, scratch: bool)

  method CaptureServices(h: Host, job: Job)
    returns (ok: bool, s: Services, ghost cuts: Cuts, ghost whole: Whole)
    requires GoodLayout(job.cfg) && StrictlySorted(job.active) && h.partial == Some(map[])
    modifies h`node, h`running, h`partial, h`faults, h`clock, h`restarts, h`harborReadOnly, h`scratch, h`stuck, h`trail
    ensures h.partial.Some? && Others(SERVICE_ENTRIES, map[], h.partial.value)
    ensures h.faults >= old(h.faults) && h.stuck >= old(h.stuck)
    ensures ServicesOnly(job.cfg, old(h.node), h.node) && old(h.trail) <= h.trail && cuts.stacks == old(h.node)
    ensures old(h.restarts) <= h.restarts <= old(h.restarts) + 1
    ensures ok || h.faults == old(h.faults) ==> h.running == old(h.running)
    ensures ok ==> ServicesCaptured(job, cuts, whole, h.partial.value)
    ensures ok ==> AllPassed(job, old(h.trail), h.trail, cuts, whole)
    ensures ok ==> BundleHeld(job.images, s.revision, h.partial.value) && BoundariesFor(job.active, s.boundaries)
    ensures h.faults == old(h.faults) ==> old(h.clock) <= h.clock
    ensures ok && h.faults == old(h.faults) ==> whole.gitea && Within(s.boundaries, old(h.clock), h.clock)
    ensures ok ==> GiteaCounted(job, whole.gitea, old(h.running), old(h.restarts), h.restarts) && SnapshotsTaken(job, cuts)
    ensures ok ==> whole.harbor == HarborStill(job.cfg, old(h.harborReadOnly))
    ensures h.faults == old(h.faults) && h.harborReadOnly ==> old(h.harborReadOnly)
    ensures !s.scratch ==> h.scratch == old(h.scratch)
    ensures TextOrNothing(job.codec, s.revision)
    ensures h.faults == old(h.faults) && BundleReady(job, h.offline) && ServicesReady(job, h.btrfs, old(h.node), old(h.running)) ==>
      ok && AllPlain(h.partial.value)
  {
    hide Others, FirstCaptured, SecondCaptured, FirstPassed, SecondPassed, Passed, FirstReady, SecondReady, HarborStill;
    hide ServicesCaptured, AllPassed, BundleHeld, ServicesOnly, BoundariesFor, Within, AllPlain, GiteaCounted, BundleReady;
    hide SERVICE_ENTRIES, FIRST_ENTRIES, SECOND_ENTRIES;
    s, cuts, whole := Services("", [], false), NoCuts(h.node), Whole(true, true);
    h.Look();
    ghost var looked := h.trail;
    StartPassed(old(h.trail), looked, Moment(h.node, h.running, h.harborReadOnly));
    var revision, boundaries;
    ok, revision, boundaries, cuts, whole := CaptureFirst(h, job);
    FirstHalf(h.partial.value);
    if !ok { return; }
    s := Services(revision, boundaries, false);
    ghost var first, node, seen, firstCuts := h.partial.value, h.node, h.trail, cuts;
    StillReady(job, h.btrfs, old(h.node), node, h.running);
    ghost var firstWhole := whole;
    var deferred;
    ok, deferred, cuts, whole := CaptureSecond(h, job, cuts, whole);
    s := Services(revision, boundaries, deferred);
    SecondHalf(job, firstCuts, firstWhole, revision, first, h.partial.value);
    ServicesOnlyOn(job.cfg, old(h.node), node, h.node);
    if ok {
      AllTogether(job, old(h.trail), looked, seen, h.trail, firstCuts, cuts, firstWhole, whole, h.partial.value);
    }
  }

  /** Both halves. */
  lemma AllTogether(job: Job, start: seq<Moment>, looked: seq<Moment>, seen: seq<Moment>, end: seq<Moment>, had: Cuts, cuts: Cuts,
                    was: Whole, whole: Whole, kids: map<Name, Tree>)
    requires cuts == had.(harborDump := cuts.harborDump, harbor := cuts.harbor, harborSnap := cuts.harborSnap, vault := cuts.vault)
    requires whole.gitea == was.gitea
    requires Passed(start, looked, cuts.stacks, false, false) && start <= looked <= seen <= end
    requires FirstCaptured(job, had, was, kids) && FirstPassed(job, looked, seen, had, was)
    requires SecondCaptured(job, cuts, whole, kids) && SecondPassed(job, seen, end, cuts, whole)
    ensures ServicesCaptured(job, cuts, whole, kids) && AllPassed(job, start, end, cuts, whole)
  {
    hide FirstCaptured, SecondCaptured, FirstPassed, SecondPassed, Passed;
    FirstAlike(job, looked, seen, had, cuts, was, whole, kids);
    PassedWithin(start, start, looked, end, cuts.stacks, false, false);
    FirstPassedWithin(job, start, looked, seen, end, cuts, whole);
    SecondPassedWithin(job, start, seen, end, end, cuts, whole);
  }

  /** What concerns the first services is the same for both. */
  lemma FirstAlike(job: Job, before: seq<Moment>, after: seq<Moment>, a: Cuts, b: Cuts, u: Whole, v: Whole, kids: map<Name, Tree>)
    requires a.keycloak == b.keycloak && a.giteaDump == b.giteaDump && a.gitea == b.gitea && a.giteaSnap == b.giteaSnap
    requires u.gitea == v.gitea
    ensures FirstCaptured(job, a, u, kids) ==> FirstCaptured(job, b, v, kids)
    ensures FirstPassed(job, before, after, a, u) ==> FirstPassed(job, before, after, b, v)
  {
    hide DumpIn, GiteaCaptured, GiteaPassed, Passed;
  }

  function NoCuts(node: NodeState): Cuts
  {
    Cuts(node, node, node, node, false, node, node, false, node)
  }

  lemma StartPassed(before: seq<Moment>, after: seq<Moment>, m: Moment)
    requires after == before + [m]
    ensures Passed(before, after, m.node, false, false)
  {
    JustPassed(before, after, m);
    PassedAnyway(before, before, after, m.node, false, m.readOnly);
  }

  lemma NothingPlain()
    ensures AllPlain(map[])
  {
  }

  /** Repository, Keycloak, Gitea. */
  method CaptureFirst(h: Host, job: Job)
    returns (ok: bool, revision: string, boundaries: seq<Boundary>, ghost cuts: Cuts, ghost whole: Whole)
    requires GoodLayout(job.cfg) && StrictlySorted(job.active) && h.partial == Some(map[])
    modifies h`node, h`running, h`partial, h`faults, h`clock, h`restarts, h`trail
    ensures h.partial.Some? && Others(FIRST_ENTRIES, map[], h.partial.value)
    ensures h.faults >= old(h.faults)
    ensures ServicesOnly(job.cfg, old(h.node), h.node) && old(h.trail) <= h.trail && cuts.stacks == old(h.node)
    ensures old(h.restarts) <= h.restarts <= old(h.restarts) + 1
    ensures ok || h.faults == old(h.faults) ==> h.running == old(h.running)
    ensures ok ==> FirstCaptured(job, cuts, whole, h.partial.value) && FirstPassed(job, old(h.trail), h.trail, cuts, whole)
    ensures ok ==> BundleHeld(job.images, revision, h.partial.value) && BoundariesFor(job.active, boundaries)
    ensures TextOrNothing(job.codec, revision)
    ensures h.faults == old(h.faults) ==> old(h.clock) <= h.clock
    ensures ok && h.faults == old(h.faults) ==> whole.gitea && Within(boundaries, old(h.clock), h.clock)
    ensures ok ==> GiteaCounted(job, whole.gitea, old(h.running), old(h.restarts), h.restarts)
    ensures ok && GITEA in job.active && job.cfg.requireBtrfs ==> cuts.giteaSnap
    ensures h.faults == old(h.faults) && BundleReady(job, h.offline) && FirstReady(job, h.btrfs, old(h.node), old(h.running)) ==>
      ok && AllPlain(h.partial.value)
  {
    hide Others, DumpIn, GiteaCaptured, GiteaPassed, BundleHeld, ServicesOnly, BoundariesFor, Within, GiteaReady, AllPlain, Passed;
    NothingPlain();
    ServicesOnlyNot(job.cfg, h.node);
    boundaries, cuts, whole := [], NoCuts(h.node), Whole(true, true);
    ok, revision := BundleStep(h, job);
    ghost var bundled := h.partial.value;
    TouchedTogether(FIRST_ENTRIES, map[], bundled, bundled, {BUNDLE}, {});
    if !ok { return; }
    ghost var keycloak;
    ok, keycloak := KeycloakStep(h, job);
    ghost var dumped, node, seen := h.partial.value, h.node, h.trail;
    GiteaStaysReady(job.cfg, h.btrfs, old(h.node), node, h.running);
    TouchedTogether(FIRST_ENTRIES, map[], bundled, dumped, {BUNDLE}, {KEYCLOAK_DUMP});
    StepKeeps(job, cuts, whole, revision, {KEYCLOAK_DUMP}, bundled, dumped);
    TouchedTogether({BUNDLE, KEYCLOAK_DUMP}, map[], bundled, dumped, {BUNDLE}, {KEYCLOAK_DUMP});
    NoGiteaYet(dumped);
    if !ok { return; }
    ghost var snap, dump, gitea, right;
    ok, boundaries, snap, dump, gitea, right := GiteaStep(h, job);
    cuts := cuts.(keycloak := keycloak, giteaDump := dump, gitea := gitea, giteaSnap := snap);
    whole := Whole(right, true);
    ServicesOnlyOn(job.cfg, old(h.node), node, h.node);
    TouchedTogether(FIRST_ENTRIES, map[], dumped, h.partial.value, FIRST_ENTRIES, {GITEA_DUMP, GITEA_STACK, GITEA_DATA});
    StepKeeps(job, cuts, whole, revision, {GITEA_DUMP, GITEA_STACK, GITEA_DATA}, dumped, h.partial.value);
    KeycloakKept(job, keycloak, dumped, h.partial.value);
    if ok {
      if KEYCLOAK in job.active {
        PassedWithin(old(h.trail), old(h.trail), seen, h.trail, keycloak, false, false);
      }
      if GITEA in job.active {
        GiteaPassedWithin(old(h.trail), seen, h.trail, h.trail, right, snap, dump, gitea);
      }
    }
  }

  lemma KeycloakKept(job: Job, cut: NodeState, a: map<Name, Tree>, b: map<Name, Tree>)
    requires Others({GITEA_DUMP, GITEA_STACK, GITEA_DATA}, a, b)
    ensures DumpIn(job.tools, cut, a, KEYCLOAK_DUMP, KEYCLOAK_DB) ==> DumpIn(job.tools, cut, b, KEYCLOAK_DUMP, KEYCLOAK_DB)
  {
  }

  /** Harbor, OpenBao. */
  method CaptureSecond(h: Host, job: Job, ghost had: Cuts, ghost was: Whole)
    returns (ok: bool, deferred: bool, ghost cuts: Cuts, ghost whole: Whole)
    requires GoodLayout(job.cfg) && StrictlySorted(job.active)
    requires h.partial.Some? && HARBOR_DATA !in h.partial.value
    modifies h`partial, h`faults, h`harborReadOnly, h`scratch, h`stuck, h`node, h`trail
    ensures h.partial.Some? && Others(SECOND_ENTRIES, old(h.partial.value), h.partial.value)
    ensures h.faults >= old(h.faults) && h.stuck >= old(h.stuck)
    ensures ServicesOnly(job.cfg, old(h.node), h.node) && old(h.trail) <= h.trail
    ensures cuts == had.(harborDump := cuts.harborDump, harbor := cuts.harbor, harborSnap := cuts.harborSnap, vault := cuts.vault)
    ensures ok && HARBOR in job.active && job.cfg.requireBtrfs ==> cuts.harborSnap
    ensures whole == Whole(was.gitea, HarborStill(job.cfg, old(h.harborReadOnly)))
    ensures ok ==> SecondCaptured(job, cuts, whole, h.partial.value) && SecondPassed(job, old(h.trail), h.trail, cuts, whole)
    ensures h.faults == old(h.faults) && h.harborReadOnly ==> old(h.harborReadOnly)
    ensures !deferred ==> h.scratch == old(h.scratch)
    ensures h.faults == old(h.faults) && SecondReady(job, h.btrfs, old(h.node), h.running) ==>
      ok && (AllPlain(old(h.partial.value)) ==> AllPlain(h.partial.value))
  {
    hide Others, HarborCaptured, HarborPassed, VaultCaptured, ServicesOnly, AllPlain, SecondReady, Passed, HarborStill;
    deferred := false;
    whole := Whole(was.gitea, HarborStill(job.cfg, h.harborReadOnly));
    cuts := had;
    ghost var before := h.partial.value;
    ghost var snap, dump, harbor;
    ok, snap, dump, harbor := HarborStep(h, job);
    cuts := cuts.(harborDump := dump, harbor := harbor, harborSnap := snap);
    ghost var filled, node, seen := h.partial.value, h.node, h.trail;
    StillReady(job, h.btrfs, old(h.node), node, h.running);
    TouchedTogether(SECOND_ENTRIES, before, filled, filled, {HARBOR_DUMP, HARBOR_DATA}, {});
    if !ok { return; }
    ghost var vault;
    ok, deferred, vault := OpenBaoStep(h, job);
    cuts := cuts.(vault := vault);
    ServicesOnlyOn(job.cfg, old(h.node), node, h.node);
    TouchedTogether(SECOND_ENTRIES, before, filled, h.partial.value, {HARBOR_DUMP, HARBOR_DATA}, {OPENBAO_SNAP});
    HarborKept(job, cuts, whole.harbor, filled, h.partial.value);
    if ok {
      if HARBOR in job.active {
        HarborPassedWithin(old(h.trail), old(h.trail), seen, h.trail, whole.harbor, snap, dump, harbor);
      }
      if OPENBAO in job.active {
        PassedWithin(old(h.trail), seen, h.trail, h.trail, vault, false, false);
      }
    }
  }

  lemma HarborKept(job: Job, cuts: Cuts, whole: bool, a: map<Name, Tree>, b: map<Name, Tree>)
    requires Others({OPENBAO_SNAP}, a, b)
    ensures HarborCaptured(job.tools, whole, cuts.harborSnap, cuts.harborDump, cuts.harbor, a) ==>
      HarborCaptured(job.tools, whole, cuts.harborSnap, cuts.harborDump, cuts.harbor, b)
  {
    hide Lookup, PartCaptured;
  }

  // ----------------------------------------------------- images and definitions

  const STACK_ENTRIES: set<string> := {OFFLINE_TAR, DEFINITIONS}

  datatype Stacks = Stacks(images: seq<string>, archives: seq<ImageArchive>, tags: seq<string>)

  /** The archived images of a run with images; a run without has none. */
  predicate ImagesHeld(job: Job, k: Stacks, kids: map<Name, Tree>)
  {
    if !job.images then k.archives == []
    else
      && k.images != [] && StrictlySorted(k.images) && ArchiveOf(job.id, k.images, k.archives)
      && OFFLINE_TAR in kids && kids[OFFLINE_TAR].File?
  }

  predicate StacksAreText(codec: Codec, k: Stacks)
  {
    (forall s :: s in k.images ==> codec.text(s)) && IDsAreText(codec, k.archives)
  }

  /** The compose files name an image, where images are asked for. */
  predicate ImagesReady(job: Job, files: Tree)
  {
    job.images ==> SomeImageNamed(job.tools, job.codec, files, job.active)
  }

  predicate SomeImageNamed(tools: Tools, codec: Codec, files: Tree, active: seq<string>)
  {
    exists i :: 0 <= i < |active| && ImagesOf(tools, codec, files, active[i]) != {}
  }

  lemma NamedIsDetected(tools: Tools, codec: Codec, files: Tree, active: seq<string>, images: seq<string>)
    requires SomeImageNamed(tools, codec, files, active)
    requires forall s :: s in images <==> ImageNamed(tools, codec, files, active, s)
    ensures images != []
  {
    hide ImagesOf;
    var i :| 0 <= i < |active| && ImagesOf(tools, codec, files, active[i]) != {};
    var s :| s in ImagesOf(tools, codec, files, active[i]);
    assert ImageNamed(tools, codec, files, active, s);
  }

  method ImagesStep(h: Host, job: Job, ghost start: NodeState) returns (ok: bool, k: Stacks)
    requires h.partial.Some? && GoodLayout(job.cfg) && ServicesOnly(job.cfg, start, h.node)
    modifies h`partial, h`faults, h`tags
    ensures h.partial.Some? && Others({OFFLINE_TAR}, old(h.partial.value), h.partial.value)
    ensures h.faults >= old(h.faults)
    ensures h.tags == old(h.tags) + (set t | t in k.tags)
    ensures ok ==> ImagesHeld(job, k, h.partial.value)
    ensures ok && h.faults == old(h.faults) ==> AllComplete(k.archives)
    ensures !job.images ==> ok && h.partial == old(h.partial)
    ensures StacksAreText(job.codec, k)
    ensures h.faults == old(h.faults) ==>
      forall s :: s in k.images <==> ImageNamed(job.tools, job.codec, start.files, job.active, s)
    ensures h.faults == old(h.faults) && ImagesReady(job, start.files) ==> ok
    ensures ok && AllPlain(old(h.partial.value)) ==> AllPlain(h.partial.value)
  {
    hide ArchiveOf, AllComplete, TextOrNothing, ServicesOnly, GoodLayout, ImageNamed, SomeImageNamed;
    var images := DetectImages(h, job, start);
    if h.faults == old(h.faults) && SomeImageNamed(job.tools, job.codec, start.files, job.active) {
      NamedIsDetected(job.tools, job.codec, start.files, job.active, images);
    }
    k, ok := Stacks(images, [], []), true;
    if job.images {
      if images == [] {
        return false, k;
      }
      var archives, tags;
      ok, archives, tags := ArchiveImages(h, job, images);
      k := Stacks(images, archives, tags);
    } else {
      NoArchives();
    }
  }

  lemma NoArchives()
    ensures AllComplete([])
  {
  }

  method CaptureStacks(h: Host, job: Job, ghost start: NodeState) returns (ok: bool, k: Stacks)
    requires h.partial.Some? && GoodLayout(job.cfg) && ServicesOnly(job.cfg, start, h.node)
    requires StrictlySorted(job.active) && forall i :: 0 <= i < |job.active| ==> ValidEntry(job.active[i])
    modifies h`partial, h`faults, h`tags
    ensures h.partial.Some? && Others(STACK_ENTRIES, old(h.partial.value), h.partial.value)
    ensures h.faults >= old(h.faults)
    ensures h.tags == old(h.tags) + (set t | t in k.tags)
    ensures ok ==> ImagesHeld(job, k, h.partial.value)
    ensures ok ==> DefinitionsCaptured(job.active, job.images, k.archives, start, h.partial.value)
    ensures ok && h.faults == old(h.faults) ==> AllComplete(k.archives)
    ensures ok && h.faults == old(h.faults) ==>
      forall s :: s in k.images <==> ImageNamed(job.tools, job.codec, start.files, job.active, s)
    ensures h.faults == old(h.faults) && ImagesReady(job, start.files) && DefinitionsReady(start.files, job.active) ==> ok
    ensures StacksAreText(job.codec, k)
    ensures ok && h.faults == old(h.faults) && AllPlain(old(h.partial.value)) ==> AllPlain(h.partial.value)
  {
    hide StacksAreText, ServicesOnly, DefinitionsCaptured, ArchiveOf, AllComplete, DefinitionsReady, AllPlain, Plain, ImageNamed;
    hide ImagesReady;
    ok, k := ImagesStep(h, job, start);
    if !ok { return; }
    ghost var before := h.partial.value;
    ok := CopyDefinitions(h, job, start);
    if !ok { return; }
    if job.images {
      PlainDefinitions(job.active, k.archives, start, h.partial.value);
      ok := RewriteDefinitions(h, job, k.archives, start);
    }
    if ok && h.faults == old(h.faults) && AllPlain(before) {
      StillPlain({DEFINITIONS}, before, h.partial.value);
    }
  }

  lemma PlainDefinitions(active: seq<string>, archives: seq<ImageArchive>, start: NodeState, kids: map<Name, Tree>)
    ensures DefinitionsCaptured(active, false, archives, start, kids) <==> DefinitionsCaptured(active, false, [], start, kids)
  {
    hide Lookup;
  }
}
