/** `Run`: one backup, from the mode check to the released lock. Deferred actions
    are nested methods, so each one runs on every way out of what it follows. */
module BackupRun {
  import opened Text
  import opened Trees
  import opened Edits
  import opened StackScope
  import opened Listing
  import opened Manifests
  import opened Capture
  import opened Delivery
  import opened Hosts
  import opened GiteaBackup
  import opened Phases
  import opened CaptureRun
  import opened Retention
  import opened Repositories
  import opened Publication
  import Paths

  /** How a run ends. Only the last four come after the rename that publishes. */
  datatype Outcome =
    | Refused        // nothing was created
    | Leaked         // the new directory could not be protected and was left behind
    | Unpublished    // a step before the rename failed
    | SelfRejected   // the run's own verification rejected what it had assembled
    | NotDelivered   // restic failed
    | Unrecorded     // the delivery could not be written into the manifest
    | Late           // delivered and recorded, a later step failed
    | Done

  predicate Published(o: Outcome) { o.NotDelivered? || o.Unrecorded? || o.Late? || o.Done? }

  const STATUS_STANDARD := "standard"
  const STATUS_OFFLINE := "offline-images"
  const STATUS_REMOTE := "remote"

  // ---------------------------------------------------------------- publishing

  /** Assemble the manifest, write it, verify the result, rename. `sound` says that
      no step failed so far; then the verification cannot reject. */
  method Publish(h: Host, job: Job, s: Services, k: Stacks, ghost cuts: Cuts, ghost whole: Whole, ghost sound: bool)
    returns (failed: Option<Outcome>)
    requires Lossless(job.codec) && Canonical(job.active) && job.active != [] && ValidNames(job.active)
    requires h.partial.Some? && MANIFEST !in h.partial.value && job.id !in h.root
    requires sound ==> Sensible(job, cuts, whole, s, k, h.partial.value, h.clock)
    requires OwnStrings(job, s, k)
    modifies h`partial, h`faults, h`clock, h`root
    ensures h.faults >= old(h.faults)
    ensures failed.Some? ==> failed.value.Unpublished? || failed.value.SelfRejected?
    ensures failed.Some? ==> h.root == old(h.root) && h.partial.Some?
    ensures failed.None? ==> h.partial.None? && PublishedAs(job, k.archives, old(h.partial.value), old(h.root), h.root)
    ensures sound && h.faults == old(h.faults) && failed == Some(SelfRejected) ==>
      !Legible(job.codec, Dir(h.partial.value, MODE_0700))
    ensures h.faults == old(h.faults) ==> old(h.clock) <= h.clock
    ensures sound && h.faults == old(h.faults) && AllPlain(old(h.partial.value)) ==> failed.None? || failed == Some(SelfRejected)
    ensures failed.None? && h.faults == old(h.faults) ==>
      ReadManifest(job.codec, h.root[job.id]).value.createdAt >= old(h.clock)
  {
    hide Sensible, Accepted, IsListOf, Listable, AllArtifacts, GoodArtifacts, Scheduled, AllPlain, Lossless, OwnStrings, Legible;
    hide ReadManifest, PublishedAs, OwnManifest;
    var t := Dir(h.partial.value, MODE_0700);
    if sound && AllPlain(h.partial.value) {
      SensibleArtifacts(job, cuts, whole, s, k, t, h.clock);
      PlainListable(t);
    }
    var built, files := BuildManifestFiles(Style(job.codec.hash, false), t);
    if !built {
      return Some(Unpublished);
    }
    var artifacts := ExpectedArtifacts(t, job.active, job.images, true);
    var complete := ValidateArtifacts(artifacts, true, t);
    if !complete {
      return Some(Unpublished);
    }
    var createdAt := h.Now();
    var hostname := Hostname(job.codec);
    var m := OwnManifest(job, s, k, files, t, createdAt, hostname);
    var written := h.Attempt();
    if !written {
      h.Spoil(MANIFEST);
      return Some(Unpublished);
    }
    if sound && h.faults == old(h.faults) {
      OwnManifestAccepted(job, cuts, whole, s, k, t, files, old(h.clock), createdAt, hostname);
    }
    h.Place(MANIFEST, File(job.codec.encode(m), MODE_0600));
    LegibleWithManifest(job.codec, t, job.codec.encode(m));
    var u := Dir(h.partial.value, MODE_0700);
    assert u == WithManifest(t, job.codec.encode(m));
    var verified := Verify(job.codec, u);
    if verified.None? || (job.images && !Scheduled(verified.value, u)) {
      return Some(SelfRejected);
    }
    var renamed := h.Attempt();
    if !renamed {
      return Some(Unpublished);
    }
    OwnPublished(job, s, k, t, files, createdAt, hostname, h.root);
    h.root := h.root[job.id := u];
    h.partial := None;
    return None;
  }

  /** The host's name, which counts only if it is text. */
  method Hostname(codec: Codec) returns (name: string)
    requires Lossless(codec)
    ensures codec.text(name)
  {
    NothingIsText(codec);
    var answer: string := *;
    name := if codec.text(answer) then answer else "";
  }

  lemma LegibleWithManifest(c: Codec, t: Tree, data: Data)
    requires t.Dir? && MANIFEST !in t.kids
    ensures Legible(c, WithManifest(t, data)) <==> Legible(c, t)
  {
    NoManifestThere(t);
    LegibleIgnoresManifest(c, t, data);
  }

  /** Whatever is accepted is read back as it was written. */
  lemma OwnReadsBack(job: Job, s: Services, k: Stacks, t: Tree, files: seq<ManifestFile>, createdAt: Time, hostname: string)
    requires Lossless(job.codec) && OwnStrings(job, s, k) && job.codec.text(hostname) && job.active != []
    requires t.Dir? && MANIFEST !in t.kids && IsListOf(Style(job.codec.hash, false), t, files) && ValidNames(job.active)
    requires Accepted(job.codec, WithManifest(t, job.codec.encode(OwnManifest(job, s, k, files, t, createdAt, hostname))))
    ensures var m := OwnManifest(job, s, k, files, t, createdAt, hostname);
      ReadManifest(job.codec, WithManifest(t, job.codec.encode(m))) == Some(m)
  {
    hide Accepted, IsListOf, AllArtifacts, Legible, Lossless, ReadManifest, OwnStrings, WithManifest, Textual;
    var m := OwnManifest(job, s, k, files, t, createdAt, hostname);
    AcceptedIsLegible(job.codec, WithManifest(t, job.codec.encode(m)));
    LegibleWithManifest(job.codec, t, job.codec.encode(m));
    OwnIsTextExactly(job, s, k, files, t, createdAt, hostname);
    ReadsBack(job.codec, t, m);
  }

  /** Renamed, it is a published backup of this run. */
  lemma OwnPublished(job: Job, s: Services, k: Stacks, t: Tree, files: seq<ManifestFile>, createdAt: Time, hostname: string,
                     before: map<string, Tree>)
    requires Lossless(job.codec) && OwnStrings(job, s, k) && job.codec.text(hostname)
    requires Canonical(job.active) && job.active != [] && ValidNames(job.active)
    requires t.Dir? && MANIFEST !in t.kids && IsListOf(Style(job.codec.hash, false), t, files)
    requires var m := OwnManifest(job, s, k, files, t, createdAt, hostname);
      var u := WithManifest(t, job.codec.encode(m));
      Accepted(job.codec, u) && (job.images ==> Scheduled(ReadManifest(job.codec, u).value, u))
    ensures var u := WithManifest(t, job.codec.encode(OwnManifest(job, s, k, files, t, createdAt, hostname)));
      PublishedAs(job, k.archives, t.kids, before, before[job.id := u]) && ReadManifest(job.codec, u).value.createdAt == createdAt
  {
    hide Accepted, IsListOf, AllArtifacts, Lossless, ReadManifest, OwnStrings, Scheduled;
    OwnReadsBack(job, s, k, t, files, createdAt, hostname);
    OwnUndelivered(job, s, k, t, files, createdAt, hostname);
  }

  lemma OwnUndelivered(job: Job, s: Services, k: Stacks, t: Tree, files: seq<ManifestFile>, createdAt: Time,
                       hostname: string)
    requires Canonical(job.active) && ValidNames(job.active)
    ensures Undelivered(OwnManifest(job, s, k, files, t, createdAt, hostname))
  {
    AssembledUndelivered(t, job.active, job.images);
  }

  /** The new entry is what was captured plus a manifest of its own that accepts it. */
  ghost predicate PublishedAs(job: Job, archives: seq<ImageArchive>, kids: map<Name, Tree>, before: map<string, Tree>,
                              after: map<string, Tree>)
  {
    && job.id in after && after == before[job.id := after[job.id]]
    && after[job.id].Dir? && Others({MANIFEST}, kids, after[job.id].kids)
    && Accepted(job.codec, after[job.id])
    && FreshManifest(job, ReadManifest(job.codec, after[job.id]).value)
    && Offered(job, archives, ReadManifest(job.codec, after[job.id]).value, after[job.id])
  }

  /** The archives the definitions name are those the manifest lists, and a backup with
      images passes the check of offline recovery points. */
  predicate Offered(job: Job, archives: seq<ImageArchive>, m: Manifest, t: Tree)
  {
    m.archives == archives && (job.images ==> Scheduled(m, t))
  }

  /** What a manifest of this run says about the backup. */
  predicate Declares(job: Job, m: Manifest)
  {
    && m.id == job.id && m.version == CURRENT_VERSION && m.activeStacks == Some(job.active) && m.stackDefinitions
    && m.offlineImages == job.images && m.repositoryBundle == job.images && job.active != []
  }

  predicate FreshManifest(job: Job, m: Manifest)
  {
    Declares(job, m) && Undelivered(m)
  }

  // ------------------------------------------------------------ after publishing

  /** `recordRemoteDelivery`: read the manifest, append the evidence, write it back.
      A failing write leaves debris in its place. */
  method RecordRemoteDelivery(h: Host, codec: Codec, id: string, status: string, complete: bool) returns (ok: bool)
    requires id in h.root && h.root[id].Dir? && ReadManifest(codec, h.root[id]).Some?
    modifies h`root, h`faults
    ensures h.faults == old(h.faults) + if ok then 0 else 1
    ensures id in h.root && h.root == old(h.root)[id := h.root[id]] && h.root[id].Dir?
    ensures ok ==> h.root[id] == WithManifest(old(h.root[id]),
      codec.encode(WithDelivery(ReadManifest(codec, old(h.root[id])).value, status, complete)))
  {
    hide ReadManifest;
    var m := ReadManifest(codec, h.root[id]).value;
    ok := h.Attempt();
    if !ok {
      var torn := *;
      var debris: Data := *;
      if torn {
        h.root := h.root[id := WithManifest(h.root[id], debris)];
      }
      return;
    }
    h.root := h.root[id := WithManifest(h.root[id], codec.encode(WithDelivery(m, status, complete)))];
  }

  function KindOf(images: bool): Kind { if images then OfflineImages else Standard }

  /** How many backups of the run's own kind are kept: at least one. */
  function Keep(cfg: Config, images: bool): (n: nat)
    ensures n > 0
  {
    var n := if images then cfg.offlineRetention else cfg.localRetention;
    if n >= 1 then n else if images then 2 else 3
  }

  /** The entry as it stands once delivery is recorded. */
  function Recorded(codec: Codec, t: Tree): Tree
    requires t.Dir? && ReadManifest(codec, t).Some?
  {
    WithManifest(t, codec.encode(WithDelivery(ReadManifest(codec, t).value, PRODUCED, true)))
  }

  /** A completed rotation: exactly the victims are gone. */
  ghost predicate RotationDone(job: Job, cal: Calendar, before: map<string, Tree>, after: map<string, Tree>, victims: set<string>)
  {
    && RotatedExactly(job.codec, cal, KindOf(job.images), Keep(job.cfg, job.images), before, victims)
    && after == before - victims
  }

  /** The backup root after a recorded delivery and a rotation, complete or not. */
  ghost predicate RotatedAround(job: Job, cal: Calendar, before: map<string, Tree>, after: map<string, Tree>,
                                victims: set<string>)
  {
    && Untouched(victims, before, after)
    && (victims != {} ==> RotatedExactly(job.codec, cal, KindOf(job.images), Keep(job.cfg, job.images), before, victims))
  }

  function ResticID(id: string): string { if ValidID(id) then id else "" }

  /** Every repository visited has a snapshot of the backup. */
  ghost predicate InEveryRepository(rc: ResticConfig, id: string, snapshots: set<(string, string)>)
  {
    forall r :: r in Visited(rc) ==> (r, ResticID(id)) in snapshots
  }

  /** New snapshots are snapshots of this backup, in the repositories delivered to, and
      only there, by the retention policy, older ones of other backups may be gone. */
  ghost predicate DeliveredOnly(rc: ResticConfig, id: string, before: set<(string, string)>, after: set<(string, string)>)
  {
    Touched(Visited(rc), ResticID(id), before, after)
  }

  /** The delivery policy a run insists on. */
  predicate RemoteRequired(rc: ResticConfig)
  {
    rc.requireRemote && (SomeNamedRemote(rc) || IsRemote(rc.repository))
  }

  /** Restic, then the delivery record. */
  method DeliverAndRecord(h: Host, job: Job, rc: ResticConfig) returns (failed: Option<Outcome>, remote: bool)
    requires Lossless(job.codec) && job.id in h.root && h.root[job.id].Dir?
    requires Accepted(job.codec, h.root[job.id]) && FreshManifest(job, ReadManifest(job.codec, h.root[job.id]).value)
    modifies h`faults, h`snapshots, h`root, h`lost
    ensures h.faults >= old(h.faults) && h.lost >= old(h.lost)
    ensures Untouched({job.id}, old(h.root), h.root)
    ensures failed.Some? ==> failed.value.NotDelivered? || failed.value.Unrecorded?
    ensures failed == Some(NotDelivered) && h.lost == old(h.lost) ==> job.id in h.root && !Accepted(job.codec, h.root[job.id])
    ensures failed.None? ==> h.root == old(h.root)[job.id := Recorded(job.codec, old(h.root[job.id]))]
    ensures failed.None? ==> Delivered(job.codec, Recorded(job.codec, old(h.root[job.id])))
    ensures failed.None? && rc.requireRemote ==> InEveryRepository(rc, job.id, h.snapshots)
    ensures DeliveredOnly(rc, job.id, old(h.snapshots), h.snapshots)
    ensures remote ==> SomeNamedRemote(rc) || IsRemote(rc.repository)
    ensures failed.None? && RemoteRequired(rc) ==> remote
    ensures h.faults == old(h.faults) && Usable(rc) && ValidID(job.id) ==> failed.None?
  {
    hide Sound, GoodStacks, Visited, Sanitized, IsRemote, HasDelivery, SomeNamedRemote, Usable, ValidID;
    ghost var t := h.root[job.id];
    var sent;
    sent, remote := RunRestic(h, rc, job.codec, job.id, h.root[job.id]);
    if !sent {
      var noted := RecordRemoteDelivery(h, job.codec, job.id, FAILED, false);
      if noted {
        FailureRecorded(job.codec, t);
      } else {
        h.lost := h.lost + 1;
      }
      return Some(NotDelivered), remote;
    }
    var recorded := RecordRemoteDelivery(h, job.codec, job.id, PRODUCED, true);
    if !recorded {
      return Some(Unrecorded), remote;
    }
    DeliveryRecorded(job.codec, t);
    return None, remote;
  }

  /** The backup is strictly newer than all others that its rotation counts. */
  ghost predicate NewestOfKind(job: Job, cal: Calendar, root: map<string, Tree>)
  {
    job.id in root &&
    forall k :: k in CountedIds(job.codec, KindOf(job.images), root) && k != job.id ==>
      Inspect(job.codec, cal, k, root[k]).createdAt < Inspect(job.codec, cal, job.id, root[job.id]).createdAt
  }

  /** All counted backups are older than `t`. */
  ghost predicate OlderThan(codec: Codec, cal: Calendar, kind: Kind, root: map<string, Tree>, t: Time)
  {
    forall k :: k in CountedIds(codec, kind, root) ==> Inspect(codec, cal, k, root[k]).createdAt < t
  }

  /** A backup assembled after `t` is the newest of its kind. */
  lemma NewIsNewest(job: Job, cal: Calendar, before: map<string, Tree>, published: Tree, t: Time)
    requires Lossless(job.codec) && job.id !in before && published.Dir? && ReadManifest(job.codec, published).Some?
    requires OlderThan(job.codec, cal, KindOf(job.images), before, t) && t > 0
    requires FreshManifest(job, ReadManifest(job.codec, published).value)
    requires ReadManifest(job.codec, published).value.createdAt >= t
    ensures NewestOfKind(job, cal, before[job.id := Recorded(job.codec, published)])
  {
    hide Counted, Listed, KindOf;
    var m := WithDelivery(ReadManifest(job.codec, published).value, PRODUCED, true);
    var root := before[job.id := Recorded(job.codec, published)];
    ReadIsText(job.codec, published);
    DeliveryIsText(job.codec, ReadManifest(job.codec, published).value, PRODUCED, true);
    ReadsBack(job.codec, published, m);
    assert Inspect(job.codec, cal, job.id, root[job.id]).createdAt >= t by {
      hide ReadManifest, IsFileAt;
    }
    forall k | k in CountedIds(job.codec, KindOf(job.images), root) && k != job.id
      ensures Inspect(job.codec, cal, k, root[k]).createdAt < t
    {
      CountedElsewhere(job, before, root, k);
    }
  }

  lemma CountedElsewhere(job: Job, before: map<string, Tree>, root: map<string, Tree>, k: string)
    requires k in CountedIds(job.codec, KindOf(job.images), root) && k in before && before[k] == root[k]
    ensures k in CountedIds(job.codec, KindOf(job.images), before)
  {
    hide Counted, ValidID, KindOf;
  }

  /** Restic, the delivery record, rotation, success markers, a last look. */
  method Settle(h: Host, job: Job, rc: ResticConfig, cal: Calendar) returns (o: Outcome, ghost delivered: Tree,
                ghost victims: set<string>)
    requires Lossless(job.codec) && job.id in h.root && h.root[job.id].Dir?
    requires Accepted(job.codec, h.root[job.id]) && FreshManifest(job, ReadManifest(job.codec, h.root[job.id]).value)
    modifies h`faults, h`snapshots, h`root, h`lost, h`clock, h`status
    ensures h.faults >= old(h.faults) && h.lost >= old(h.lost)
    ensures Published(o)
    ensures o.NotDelivered? || o.Unrecorded? ==> Untouched({job.id}, old(h.root), h.root) && h.status == old(h.status)
    ensures o.NotDelivered? && h.lost == old(h.lost) ==> job.id in h.root && !Accepted(job.codec, h.root[job.id])
    ensures o.Late? || o.Done? ==>
      && delivered == Recorded(job.codec, old(h.root[job.id])) && Delivered(job.codec, delivered)
      && RotatedAround(job, cal, old(h.root)[job.id := delivered], h.root, victims)
    ensures (o.Late? || o.Done?) && rc.requireRemote ==> InEveryRepository(rc, job.id, h.snapshots)
    ensures DeliveredOnly(rc, job.id, old(h.snapshots), h.snapshots)
    ensures o.Done? ==> job.id in h.root && h.root[job.id] == delivered
    ensures o.Done? ==> RotationDone(job, cal, old(h.root)[job.id := delivered], h.root, victims)
    ensures o.Done? ==> AllMarked(job, rc, h.status)
    ensures NewestOfKind(job, cal, old(h.root)[job.id := Recorded(job.codec, old(h.root[job.id]))]) ==>
      h.faults == old(h.faults) && Usable(rc) && ValidID(job.id) ==> o.Done?
  {
    hide DeliveredOnly, RemoteRequired, AllMarked, NewestOfKind, Usable, ValidID, RotatedAround, RotationDone;
    hide Accepted, Delivered, InEveryRepository, ReadManifest, FreshManifest, Recorded, Untouched;
    delivered, victims := h.root[job.id], {};
    var failed, remote := DeliverAndRecord(h, job, rc);
    if failed.Some? {
      return failed.value, delivered, victims;
    }
    delivered := h.root[job.id];
    var concluded;
    concluded, victims := Conclude(h, job, rc, cal, remote);
    return if concluded then Done else Late, delivered, victims;
  }

  /** Rotation, markers, a last look. */
  method Conclude(h: Host, job: Job, rc: ResticConfig, cal: Calendar, remote: bool) returns (done: bool, ghost victims: set<string>)
    requires job.id in h.root && (RemoteRequired(rc) ==> remote)
    modifies h`faults, h`root, h`clock, h`status
    ensures h.faults >= old(h.faults)
    ensures RotatedAround(job, cal, old(h.root), h.root, victims)
    ensures done ==> job.id in h.root && h.root[job.id] == old(h.root[job.id])
    ensures done ==> RotationDone(job, cal, old(h.root), h.root, victims) && AllMarked(job, rc, h.status)
    ensures h.faults == old(h.faults) && NewestOfKind(job, cal, old(h.root)) ==> done
  {
    hide RemoteRequired, AllMarked, NewestOfKind, RotatedExactly, CountedIds, KindOf, Keep;
    ghost var before := h.root;
    var rotated;
    rotated, victims := RotateLocalFiltered(h, job.codec, cal, Keep(job.cfg, job.images), KindOf(job.images));
    if !rotated {
      return false, victims;
    }
    if NewestOfKind(job, cal, before) {
      assert before == before[job.id := before[job.id]];
      NewestBackupStays(job, cal, before, h.root, before[job.id], victims);
    }
    var completedAt := h.Now();
    done := WriteMarkers(h, job, rc, remote);
    if !done || job.id !in h.root {
      return false, victims;
    }
    done := h.Attempt();
  }

  predicate Marked(status: map<string, string>, kind: string, id: string)
  {
    kind in status && status[kind] == id
  }

  /** The kinds of success this run may claim, each naming it. */
  predicate AllMarked(job: Job, rc: ResticConfig, status: map<string, string>)
  {
    && Marked(status, STATUS_STANDARD, job.id)
    && (job.images ==> Marked(status, STATUS_OFFLINE, job.id))
    && (RemoteRequired(rc) ==> Marked(status, STATUS_REMOTE, job.id))
  }

  /** The success markers, written in order until one fails. */
  method WriteMarkers(h: Host, job: Job, rc: ResticConfig, remote: bool) returns (ok: bool)
    requires RemoteRequired(rc) ==> remote
    modifies h`faults, h`status
    ensures h.faults >= old(h.faults)
    ensures ok ==> AllMarked(job, rc, h.status)
    ensures !remote && STATUS_REMOTE in old(h.status) ==> Marked(h.status, STATUS_REMOTE, old(h.status[STATUS_REMOTE]))
    ensures h.faults == old(h.faults) ==> ok
  {
    hide RemoteRequired;
    ok := h.Attempt();
    if !ok { return; }
    h.status := h.status[STATUS_STANDARD := job.id];
    if job.images {
      ok := h.Attempt();
      if !ok { return; }
      h.status := h.status[STATUS_OFFLINE := job.id];
    }
    if remote {
      ok := h.Attempt();
      if !ok { return; }
      h.status := h.status[STATUS_REMOTE := job.id];
    }
  }

  // ------------------------------------------------------------- all the steps

  /** Removals registered to run at the end: temporary tags and the scratch file. */
  datatype Loose = Loose(tags: seq<string>, scratch: bool)

  /** What a run leaves behind, for its contract: the states it captured, whether Gitea
      and Harbor could not write meanwhile, the archives its definitions name, the
      delivered entry, and what rotation meant to delete. */
  datatype Trace = Trace(cuts: Cuts, whole: Whole, archives: seq<ImageArchive>, delivered: Tree, victims: set<string>)

  function NoTrace(node: NodeState, archives: seq<ImageArchive>): Trace
  {
    Trace(NoCuts(node), Whole(false, false), archives, Special, {})
  }

  /** All that is to be captured is there and can be. */
  ghost predicate CaptureReady(job: Job, btrfs: bool, offline: Offline, node: NodeState, running: set<string>)
  {
    && ServicesReady(job, btrfs, node, running) && DefinitionsReady(node.files, job.active)
    && BundleReady(job, offline) && ImagesReady(job, node.files)
  }

  /** Capture, as far as it gets. */
  method CaptureAll(h: Host, job: Job)
    returns (ok: bool, s: Services, k: Stacks, ghost cuts: Cuts, ghost whole: Whole)
    requires GoodLayout(job.cfg) && DiscoveredIn(job.cfg, h.node.files, job.active) && h.partial == Some(map[])
    modifies h`node, h`running, h`partial, h`faults, h`clock, h`restarts, h`harborReadOnly, h`scratch, h`stuck, h`tags
    modifies h`trail
    ensures h.partial.Some? && MANIFEST !in h.partial.value
    ensures h.faults >= old(h.faults) && h.stuck >= old(h.stuck)
    ensures ServicesOnly(job.cfg, old(h.node), h.node) && old(h.trail) <= h.trail && cuts.stacks == old(h.node)
    ensures old(h.restarts) <= h.restarts <= old(h.restarts) + 1
    ensures ok || h.faults == old(h.faults) ==> h.running == old(h.running)
    ensures ok ==> HoldsCapture(job, cuts, whole, k.archives, Dir(h.partial.value, MODE_0700))
    ensures ok ==> AllPassed(job, old(h.trail), h.trail, cuts, whole)
    ensures ok ==> whole.harbor == HarborStill(job.cfg, old(h.harborReadOnly)) && OwnStrings(job, s, k)
    ensures ok && h.faults == old(h.faults) && old(h.clock) > 0 && ValidID(job.id) ==>
      Sensible(job, cuts, whole, s, k, h.partial.value, h.clock)
    ensures h.faults == old(h.faults) ==> old(h.clock) <= h.clock
    ensures ok && h.faults == old(h.faults) ==> whole.gitea
    ensures ok ==> GiteaCounted(job, whole.gitea, old(h.running), old(h.restarts), h.restarts) && SnapshotsTaken(job, cuts)
    ensures h.faults == old(h.faults) && h.harborReadOnly ==> old(h.harborReadOnly)
    ensures !s.scratch ==> h.scratch == old(h.scratch)
    ensures h.tags == old(h.tags) + (set t | t in k.tags)
    ensures h.faults == old(h.faults) && CaptureReady(job, h.btrfs, h.offline, old(h.node), old(h.running)) ==>
      ok && AllPlain(h.partial.value)
  {
    hide Others, ServicesOnly, ServicesCaptured, DefinitionsCaptured, BundleHeld, ImagesHeld, AllPassed, HarborStill, ImageNamed;
    hide BoundariesFor, Within, AllComplete, DiscoveredIn, ServicesReady, DefinitionsReady, AllPlain, TextOrNothing, StacksAreText;
    hide BundleReady, ImagesReady, GiteaCounted, SnapshotsTaken;
    k := Stacks([], [], []);
    DiscoveredNames(job.cfg, h.node.files, job.active);
    ok, s, cuts, whole := CaptureServices(h, job);
    ghost var served := h.partial.value;
    TouchedTogether(STACK_ENTRIES, served, served, served, {}, {});
    NoManifestYet(served, served);
    if !ok {
      return;
    }
    ok, k := CaptureStacks(h, job, old(h.node));
    NoManifestYet(served, h.partial.value);
    ServicesKept(job, cuts, whole, s.revision, served, h.partial.value);
    HeldArchives(job, k, h.partial.value);
  }

  lemma HeldArchives(job: Job, k: Stacks, kids: map<Name, Tree>)
    ensures ImagesHeld(job, k, kids) && job.images ==> OFFLINE_TAR in kids && kids[OFFLINE_TAR].File?
    ensures ImagesHeld(job, k, kids) ==> if job.images then ArchiveOf(job.id, k.images, k.archives) else k.archives == []
  {
  }

  lemma DiscoveredNames(cfg: Config, files: Tree, active: seq<string>)
    requires DiscoveredIn(cfg, files, active)
    ensures StrictlySorted(active) && ValidNames(active) && forall i :: 0 <= i < |active| ==> ValidEntry(active[i])
  {
    hide Lookup;
    forall i | 0 <= i < |active| ensures ValidName(active[i]) && ValidEntry(active[i]) {
      assert active[i] in active;
    }
  }

  /** A delivered backup: its entry verifies, carries the evidence and shows the states;
      around it nothing changed but what rotation deleted. */
  ghost predicate DeliveredRun(job: Job, cal: Calendar, before: map<string, Tree>, after: map<string, Tree>, tr: Trace)
  {
    && Delivered(job.codec, tr.delivered) && Declares(job, ReadManifest(job.codec, tr.delivered).value)
    && RotatedAround(job, cal, before[job.id := tr.delivered], after, tr.victims)
    && HoldsCapture(job, tr.cuts, tr.whole, tr.archives, tr.delivered)
    && Offered(job, tr.archives, ReadManifest(job.codec, tr.delivered).value, tr.delivered)
  }

  /** Recording the delivery leaves all of that as it is. */
  lemma OfferedAnyway(job: Job, archives: seq<ImageArchive>, m: Manifest, t: Tree, data: Data)
    requires t.Dir? && Offered(job, archives, m, t)
    ensures Offered(job, archives, WithDelivery(m, PRODUCED, true), WithManifest(t, data))
  {
    var u := WithManifest(t, data);
    OneLevel(t, BUNDLE);
    OneLevel(u, BUNDLE);
    OneLevel(t, DEFINITIONS);
    OneLevel(u, DEFINITIONS);
  }

  /** A delivered backup with images is an offline recovery point. */
  lemma DeliveredIsPoint(job: Job, cal: Calendar, before: map<string, Tree>, after: map<string, Tree>, tr: Trace)
    requires DeliveredRun(job, cal, before, after, tr) && job.images
    ensures OfflinePoint(job.codec, tr.delivered)
  {
    hide ServicesCaptured, DefinitionsCaptured, RotatedAround, Delivered, Scheduled, Declares, ReadManifest;
    OneLevel(tr.delivered, OFFLINE_TAR);
  }

  lemma RecordedShows(job: Job, cuts: Cuts, whole: Whole, archives: seq<ImageArchive>, kids: map<Name, Tree>,
                      before: map<string, Tree>, after: map<string, Tree>)
    requires PublishedAs(job, archives, kids, before, after)
    requires Lossless(job.codec)
    ensures after[job.id].Dir? && ReadManifest(job.codec, after[job.id]).Some?
    ensures var m := ReadManifest(job.codec, Recorded(job.codec, after[job.id])); m.Some? && Declares(job, m.value)
    ensures var u := Recorded(job.codec, after[job.id]); Offered(job, archives, ReadManifest(job.codec, u).value, u)
    ensures HoldsCapture(job, cuts, whole, archives, Dir(kids, MODE_0700)) ==>
      HoldsCapture(job, cuts, whole, archives, Recorded(job.codec, after[job.id]))
  {
    hide Sound, HoldsCapture, Offered;
    var t := Dir(kids, MODE_0700);
    ReadIsText(job.codec, after[job.id]);
    DeliveryIsText(job.codec, ReadManifest(job.codec, after[job.id]).value, PRODUCED, true);
    ReadsBack(job.codec, after[job.id], WithDelivery(ReadManifest(job.codec, after[job.id]).value, PRODUCED, true));
    var m := ReadManifest(job.codec, after[job.id]).value;
    OfferedAnyway(job, archives, m, after[job.id], job.codec.encode(WithDelivery(m, PRODUCED, true)));
    if HoldsCapture(job, cuts, whole, archives, t) {
      var u := Recorded(job.codec, after[job.id]);
      assert Others({MANIFEST}, t.kids, u.kids);
      ManifestIsNoCapture(job, cuts, whole, archives, t, u);
    }
  }

  /** Everything a run may leave for others to see. */
  datatype Store = Store(root: map<string, Tree>, snapshots: set<(string, string)>, status: map<string, string>)

  function Shelf(h: Host): Store
    reads h
  {
    Store(h.root, h.snapshots, h.status)
  }

  /** How a run ends, told by what others see. Before the rename nothing changes.
      After a failed delivery, if that could be noted, the new entry is rejected.
      After a recorded delivery it is a verified, delivered backup; `Done` means it
      also survived rotation and is marked. */
  ghost predicate Ends(job: Job, rc: ResticConfig, cal: Calendar, before: Store, after: Store, noted: bool, o: Outcome,
                       tr: Trace)
  {
    && (!Published(o) ==> after == before)
    && (o.NotDelivered? || o.Unrecorded? ==> Untouched({job.id}, before.root, after.root) && after.status == before.status)
    && (o.NotDelivered? && noted ==> job.id in after.root && !Accepted(job.codec, after.root[job.id]))
    && (o.Late? || o.Done? ==> DeliveredRun(job, cal, before.root, after.root, tr))
    && ((o.Late? || o.Done?) && rc.requireRemote ==> InEveryRepository(rc, job.id, after.snapshots))
    && (Published(o) ==> DeliveredOnly(rc, job.id, before.snapshots, after.snapshots))
    && (o.Done? ==> job.id in after.root && after.root[job.id] == tr.delivered)
    && (o.Done? ==> RotationDone(job, cal, before.root[job.id := tr.delivered], after.root, tr.victims))
    && (o.Done? ==> AllMarked(job, rc, after.status))
  }

  /** Restic's settings are usable and the new backup will be the newest. */
  ghost predicate Prepared(job: Job, rc: ResticConfig, cal: Calendar, root: map<string, Tree>, clock: Time)
  {
    Usable(rc) && ValidID(job.id) && clock > 0 && OlderThan(job.codec, cal, KindOf(job.images), root, clock)
  }

  lemma StaysPrepared(job: Job, rc: ResticConfig, cal: Calendar, root: map<string, Tree>, clock: Time, later: Time)
    requires Prepared(job, rc, cal, root, clock) && clock <= later
    ensures Prepared(job, rc, cal, root, later) && clock > 0 && ValidID(job.id)
  {
    hide CountedIds, Inspect, Usable, ValidID;
  }

  lemma NothingEnds(job: Job, rc: ResticConfig, cal: Calendar, shelf: Store, noted: bool, tr: Trace)
    ensures Ends(job, rc, cal, shelf, shelf, noted, Unpublished, tr)
  {
    hide Untouched, Accepted, DeliveredRun, InEveryRepository, AllMarked, RotationDone;
  }

  /** Publishing and everything after it. */
  method Finish(h: Host, job: Job, rc: ResticConfig, cal: Calendar, s: Services, k: Stacks,
                ghost cuts: Cuts, ghost whole: Whole, ghost sound: bool)
    returns (o: Outcome, ghost tr: Trace)
    requires Lossless(job.codec) && Canonical(job.active) && job.active != [] && ValidNames(job.active)
    requires h.partial.Some? && MANIFEST !in h.partial.value && job.id !in h.root
    requires HoldsCapture(job, cuts, whole, k.archives, Dir(h.partial.value, MODE_0700)) && OwnStrings(job, s, k)
    requires sound ==> Sensible(job, cuts, whole, s, k, h.partial.value, h.clock)
    modifies h`partial, h`faults, h`clock, h`snapshots, h`root, h`lost, h`status
    ensures h.faults >= old(h.faults) && h.lost >= old(h.lost)
    ensures tr.cuts == cuts && tr.whole == whole
    ensures Published(o) || o.Unpublished? || o.SelfRejected?
    ensures Published(o) <==> h.partial.None?
    ensures Ends(job, rc, cal, old(Shelf(h)), Shelf(h), h.lost == old(h.lost), o, tr)
    ensures sound && h.faults == old(h.faults) && o.SelfRejected? ==> !Legible(job.codec, Remains(h, job, o))
    ensures sound && h.faults == old(h.faults) && AllPlain(old(h.partial.value)) && Prepared(job, rc, cal, old(h.root), old(h.clock)) ==>
      o.Done? || o.SelfRejected?
  {
    hide OlderThan, NewestOfKind, Usable, ValidID, AllPlain, OwnStrings, Legible, Lossless;
    hide Lookup, Others, HoldsCapture, Sensible, Accepted, Delivered, FreshManifest, Declares, Offered;
    hide RotatedExactly, Untouched, InEveryRepository, ReadManifest, AllMarked, RotationDone, DeliveredOnly, Recorded;
    tr := Trace(cuts, whole, k.archives, Special, {});
    ghost var kids := h.partial.value;
    var failed := Publish(h, job, s, k, cuts, whole, sound);
    if failed.Some? {
      return failed.value, tr;
    }
    RecordedShows(job, cuts, whole, k.archives, kids, old(h.root), h.root);
    ghost var published := h.root;
    if OlderThan(job.codec, cal, KindOf(job.images), old(h.root), old(h.clock)) && old(h.clock) > 0 && h.faults == old(h.faults) {
      NewIsNewest(job, cal, old(h.root), h.root[job.id], old(h.clock));
      var recorded := Recorded(job.codec, h.root[job.id]);
      assert h.root[job.id := recorded] == old(h.root)[job.id := recorded];
    }
    ghost var delivered, victims;
    o, delivered, victims := Settle(h, job, rc, cal);
    tr := Trace(cuts, whole, k.archives, delivered, victims);
    if o.NotDelivered? || o.Unrecorded? {
      OneEntry(old(h.root), published, h.root, job.id);
    } else {
      assert published[job.id := delivered] == old(h.root)[job.id := delivered];
    }
  }

  /** The captured states are states the node went through during the run. Harbor could
      not write exactly when the run had its credentials or found it read-only. */
  ghost predicate Existed(job: Job, before: seq<Moment>, after: seq<Moment>, readOnly: bool, tr: Trace)
  {
    && AllPassed(job, before, after, tr.cuts, tr.whole) && SnapshotsTaken(job, tr.cuts)
    && tr.whole.harbor == HarborStill(job.cfg, readOnly)
  }

  /** Every step from the empty directory on. */
  method Stages(h: Host, job: Job, rc: ResticConfig, cal: Calendar) returns (o: Outcome, loose: Loose, ghost tr: Trace)
    requires Lossless(job.codec) && GoodLayout(job.cfg) && DiscoveredIn(job.cfg, h.node.files, job.active)
    requires h.partial == Some(map[]) && job.id !in h.root
    modifies h`node, h`running, h`partial, h`faults, h`clock, h`restarts, h`harborReadOnly, h`scratch, h`stuck, h`tags
    modifies h`snapshots, h`root, h`lost, h`status, h`trail
    ensures h.faults >= old(h.faults) && h.stuck >= old(h.stuck) && h.lost >= old(h.lost)
    ensures ServicesOnly(job.cfg, old(h.node), h.node) && old(h.trail) <= h.trail
    ensures Published(o) ==> Existed(job, old(h.trail), h.trail, old(h.harborReadOnly), tr) && tr.cuts.stacks == old(h.node)
    ensures Published(o) ==> GiteaCounted(job, tr.whole.gitea, old(h.running), old(h.restarts), h.restarts)
    ensures old(h.restarts) <= h.restarts <= old(h.restarts) + 1
    ensures o.Done? || h.faults == old(h.faults) ==> h.running == old(h.running)
    ensures h.faults == old(h.faults) && h.harborReadOnly ==> old(h.harborReadOnly)
    ensures !loose.scratch ==> h.scratch == old(h.scratch)
    ensures h.tags == old(h.tags) + (set t | t in loose.tags)
    ensures Published(o) || o.Unpublished? || o.SelfRejected?
    ensures Published(o) <==> h.partial.None?
    ensures Ends(job, rc, cal, old(Shelf(h)), Shelf(h), h.lost == old(h.lost), o, tr)
    ensures h.faults == old(h.faults) && old(h.clock) > 0 && ValidID(job.id) && o.SelfRejected? ==>
      !Legible(job.codec, Remains(h, job, o))
    ensures o.Done? && h.faults == old(h.faults) ==> tr.whole.gitea
    ensures h.faults == old(h.faults) && ReadyFor(job, rc, cal, h.btrfs, h.offline, old(ViewOf(h))) ==> o.Done? || o.SelfRejected?
  {
    hide CaptureReady, AllPlain, Usable, OlderThan, OwnStrings, Legible, Lossless, Prepared;
    hide Lookup, Others, ServicesOnly, HoldsCapture, Sensible, DiscoveredIn, ValidID, Canonical, AllPassed, HarborStill, GiteaCounted;
    hide SnapshotsTaken, Ends;
    DiscoveredCanonical(job.cfg, h.node.files, job.active);
    ghost var cuts, whole;
    var ok, s, k;
    ok, s, k, cuts, whole := CaptureAll(h, job);
    loose := Loose(k.tags, s.scratch);
    tr := NoTrace(old(h.node), k.archives);
    assert Shelf(h) == old(Shelf(h));
    NothingEnds(job, rc, cal, Shelf(h), true, tr);
    if !ok {
      return Unpublished, loose, tr;
    }
    ghost var sound := h.faults == old(h.faults) && old(h.clock) > 0 && ValidID(job.id);
    if Prepared(job, rc, cal, h.root, old(h.clock)) && h.faults == old(h.faults) {
      StaysPrepared(job, rc, cal, h.root, old(h.clock), h.clock);
    }
    o, tr := Finish(h, job, rc, cal, s, k, cuts, whole, sound);
  }

  lemma OneEntry(a: map<string, Tree>, b: map<string, Tree>, c: map<string, Tree>, id: string)
    requires id in b && b == a[id := b[id]] && Untouched({id}, b, c)
    ensures Untouched({id}, a, c)
  {
  }

  lemma DiscoveredCanonical(cfg: Config, files: Tree, active: seq<string>)
    requires DiscoveredIn(cfg, files, active)
    ensures Canonical(active) && active != [] && ValidNames(active)
  {
    hide Lookup;
    DiscoveredNames(cfg, files, active);
  }

  // --------------------------------------------------------- deferred actions

  function FailureManifest(job: Job, seen: Tree, createdAt: Time, hostname: string): Manifest
    requires ValidNames(job.active)
  {
    Manifest(CURRENT_VERSION, job.id, createdAt, hostname, "", false, [], [], Some(job.active), false, false,
      AllArtifacts(seen, job.active, job.images, false), "", [], false, [])
  }

  ghost predicate FailureNoted(job: Job, seen: Tree, failures: map<string, Data>)
    requires ValidNames(job.active)
  {
    job.id in failures &&
    exists createdAt, hostname :: job.codec.text(hostname) && failures[job.id] == job.codec.encode(FailureManifest(job, seen, createdAt, hostname))
  }

  lemma FailureIsText(job: Job, seen: Tree, createdAt: Time, hostname: string)
    requires Lossless(job.codec) && ValidNames(job.active) && job.codec.text(hostname)
    ensures Textual(job.codec, FailureManifest(job, seen, createdAt, hostname))
  {
    hide AllArtifacts;
    NothingIsText(job.codec);
    OwnWordsAreText(job);
    ArtifactsAreText(job.codec, seen, job.active, job.images, false);
  }

  /** What a failure record says, read back: the run, not complete, and for every
      required path whether it was there when the record was made. */
  lemma FailureListExact(job: Job, seen: Tree, failures: map<string, Data>, i: nat)
    requires Lossless(job.codec) && ValidNames(job.active) && job.active != [] && FailureNoted(job, seen, failures)
    requires i < |RequiredPaths(seen, job.active, job.images)|
    ensures var p, m := RequiredPaths(seen, job.active, job.images)[i], job.codec.decode(failures[job.id]);
      && m.Some? && m.value.id == job.id && m.value.activeStacks == Some(job.active) && !m.value.complete
      && i < |m.value.artifacts| && m.value.artifacts[i].path == Join(p, '/') && m.value.artifacts[i].required
      && (m.value.artifacts[i].status == PRODUCED <==> Lookup(seen, p).Some?)
      && (m.value.artifacts[i].status == FAILED <==> Lookup(seen, p).None?)
  {
    hide RequiredPaths, Lookup;
    var createdAt, hostname :| job.codec.text(hostname) && failures[job.id] == job.codec.encode(FailureManifest(job, seen, createdAt, hostname));
    FailureIsText(job, seen, createdAt, hostname);
  }

  /** What the failure record looks at: the unpublished directory, still there, or
      the published one, which is missing if rotation took it. */
  function Remains(h: Host, job: Job, o: Outcome): Tree
    reads h
  {
    if h.partial.Some? then Dir(h.partial.value, MODE_0700)
    else if job.id in h.root then h.root[job.id]
    else EMPTY_DIR
  }

  /** `writeArtifactFailureRecord`, its error dropped by the caller. */
  method RecordFailure(h: Host, job: Job, seen: Tree)
    requires ValidNames(job.active) && Lossless(job.codec)
    modifies h`failures, h`faults, h`lost
    ensures h.faults >= old(h.faults) && h.lost >= old(h.lost)
    ensures h.failures.Keys - {job.id} == old(h.failures).Keys - {job.id}
    ensures forall id :: id in old(h.failures) && id != job.id ==> id in h.failures && h.failures[id] == old(h.failures[id])
    ensures h.lost == old(h.lost) ==> FailureNoted(job, seen, h.failures)
  {
    hide AllArtifacts;
    var artifacts := ExpectedArtifacts(seen, job.active, job.images, false);
    var createdAt: Time := *;
    var hostname := Hostname(job.codec);
    var m := FailureManifest(job, seen, createdAt, hostname);
    var ok := h.Attempt();
    if ok {
      h.failures := h.failures[job.id := job.codec.encode(m)];
    } else {
      h.lost := h.lost + 1;
    }
  }

  /** All of a host that a run may change and its contract speaks of. */
  datatype View = View(
    shelf: Store, node: NodeState, running: set<string>, restarts: nat, harborReadOnly: bool,
    partial: Option<map<Name, Tree>>, failures: map<string, Data>, scratch: Option<Data>, tags: set<string>,
    clock: Time, faults: nat, stuck: nat, lost: nat, trail: seq<Moment>, dropped: Option<map<Name, Tree>>)

  ghost function ViewOf(h: Host): View
    reads h
  {
    View(Shelf(h), h.node, h.running, h.restarts, h.harborReadOnly, h.partial, h.failures, h.scratch, h.tags,
      h.clock, h.faults, h.stuck, h.lost, h.trail, h.dropped)
  }

  /** Everything a run of known stacks needs in order to succeed. */
  ghost predicate ReadyFor(job: Job, rc: ResticConfig, cal: Calendar, btrfs: bool, offline: Offline, v: View)
  {
    CaptureReady(job, btrfs, offline, v.node, v.running) && Prepared(job, rc, cal, v.shelf.root, v.clock)
  }

  /** What holds of every run, however it ends: what others see, what moved on the
      node, that what was captured was there, and that scratch file and temporary tags
      are gone unless a removal failed. */
  ghost predicate Behaved(job: Job, rc: ResticConfig, cal: Calendar, before: View, after: View, o: Outcome, tr: Trace)
  {
    && Ends(job, rc, cal, before.shelf, after.shelf, after.lost == before.lost, o, tr)
    && ServicesOnly(job.cfg, before.node, after.node) && before.trail <= after.trail
    && (Published(o) ==> Existed(job, before.trail, after.trail, before.harborReadOnly, tr) && tr.cuts.stacks == before.node)
    && (Published(o) ==> GiteaCounted(job, tr.whole.gitea, before.running, before.restarts, after.restarts))
    && before.restarts <= after.restarts <= before.restarts + 1
    && (o.Done? || after.faults == before.faults ==> after.running == before.running)
    && (after.faults == before.faults && after.harborReadOnly ==> before.harborReadOnly)
    && (o.Done? && after.faults == before.faults ==> tr.whole.gitea)
    && (after.stuck == before.stuck ==> TidiedUp(before.scratch, after.scratch, before.tags, after.tags))
  }

  /** The steps, then what they registered: tags go first, then the scratch file,
      then, unless all went well, the failure record is written. The unpublished
      directory is still there at that point. */
  method RecordedRun(h: Host, job: Job, rc: ResticConfig, cal: Calendar) returns (o: Outcome, ghost tr: Trace)
    requires Lossless(job.codec) && GoodLayout(job.cfg) && DiscoveredIn(job.cfg, h.node.files, job.active)
    requires ValidNames(job.active) && h.partial == Some(map[]) && job.id !in h.root && h.holding
    modifies h`node, h`running, h`partial, h`faults, h`clock, h`restarts, h`harborReadOnly, h`scratch, h`stuck, h`tags
    modifies h`snapshots, h`root, h`lost, h`status, h`failures, h`trail, h`dropped
    ensures h.faults >= old(h.faults) && h.stuck >= old(h.stuck) && h.lost >= old(h.lost)
    ensures Behaved(job, rc, cal, old(ViewOf(h)), ViewOf(h), o, tr)
    ensures Published(o) || o.Unpublished? || o.SelfRejected?
    ensures Published(o) <==> h.partial.None?
    ensures !o.Done? && h.lost == old(h.lost) ==> FailureNoted(job, Remains(h, job, o), h.failures)
    ensures o.Done? ==> h.failures == old(h.failures)
    ensures h.faults == old(h.faults) && old(h.clock) > 0 && ValidID(job.id) && o.SelfRejected? ==>
      !Legible(job.codec, Remains(h, job, o))
    ensures h.faults == old(h.faults) && ReadyFor(job, rc, cal, h.btrfs, h.offline, old(ViewOf(h))) ==> o.Done? || o.SelfRejected?
  {
    hide ReadyFor, Legible;
    hide ServicesOnly, Existed, DiscoveredIn, ValidID, Ends, FailureNoted, TidiedUp, Lossless, GoodLayout, ValidNames, ValidName;
    var loose;
    o, loose, tr := Stages(h, job, rc, cal);
    ghost var noted, shelf := h.lost == old(h.lost), Shelf(h);
    Tidy(h, loose, old(h.scratch), old(h.tags));
    if !o.Done? {
      RecordFailure(h, job, Remains(h, job, o));
    }
    assert Shelf(h) == shelf;
    EndsAnyway(job, rc, cal, old(Shelf(h)), shelf, noted, h.lost == old(h.lost), o, tr);
  }

  lemma EndsAnyway(job: Job, rc: ResticConfig, cal: Calendar, before: Store, after: Store, noted: bool, later: bool,
                   o: Outcome, tr: Trace)
    requires Ends(job, rc, cal, before, after, noted, o, tr) && (later ==> noted)
    ensures Ends(job, rc, cal, before, after, later, o, tr)
  {
    hide Untouched, Accepted, DeliveredRun, InEveryRepository, AllMarked, RotationDone;
  }

  /** The deferred removals, tags first. */
  method Tidy(h: Host, loose: Loose, ghost scratch: Option<Data>, ghost tags: set<string>)
    requires h.tags == tags + (set t | t in loose.tags)
    requires !loose.scratch ==> h.scratch == scratch
    modifies h`tags, h`scratch, h`faults, h`stuck
    ensures h.faults >= old(h.faults) && h.stuck >= old(h.stuck)
    ensures h.stuck == old(h.stuck) ==> TidiedUp(scratch, h.scratch, tags, h.tags)
  {
    RemoveTags(h, loose.tags);
    if loose.scratch {
      var gone := RemoveScratch(h);
    }
  }

  /** No scratch file of this run and no temporary tag is left. */
  predicate TidiedUp(scratchBefore: Option<Data>, scratch: Option<Data>, tagsBefore: set<string>, tags: set<string>)
  {
    (scratch.None? || scratch == scratchBefore) && tags <= tagsBefore
  }

  ghost predicate SameButStacks(a: Job, b: Job)
  {
    a == b.(active := a.active)
  }

  /** Everything a run needs in order to succeed: its entry is new, some stack is
      active, and what the active stacks need is there. */
  ghost predicate NewRunReady(plan: Job, rc: ResticConfig, cal: Calendar, btrfs: bool, offline: Offline, v: View)
  {
    && plan.id !in v.shelf.root && StacksReady(plan, btrfs, offline, v.node, v.running)
    && Prepared(plan, rc, cal, v.shelf.root, v.clock)
  }

  ghost predicate StacksReady(plan: Job, btrfs: bool, offline: Offline, node: NodeState, running: set<string>)
  {
    && IsDirAt(node.files, STACKS)
    && (exists n :: Active(plan.cfg.switches, Lookup(node.files, STACKS).value.kids, n))
    && forall active :: DiscoveredIn(plan.cfg, node.files, active) ==> CaptureReady(plan.(active := active), btrfs, offline, node, running)
  }

  lemma DiscoveredReady(plan: Job, active: seq<string>, rc: ResticConfig, cal: Calendar, btrfs: bool, offline: Offline, v: View,
                        now: View)
    requires NewRunReady(plan, rc, cal, btrfs, offline, v) && DiscoveredIn(plan.cfg, v.node.files, active)
    requires now == v.(faults := now.faults)
    ensures ReadyFor(plan.(active := active), rc, cal, btrfs, offline, now)
  {
    hide CaptureReady, DiscoveredIn, OlderThan, Usable, ValidID;
  }

  /** From the name check of the new entry to the failure record. */
  method NamedRun(h: Host, plan: Job, rc: ResticConfig, cal: Calendar) returns (o: Outcome, job: Job, ghost tr: Trace)
    requires Lossless(plan.codec) && GoodLayout(plan.cfg) && plan.active == [] && h.partial == Some(map[]) && h.holding
    modifies h`node, h`running, h`partial, h`faults, h`clock, h`restarts, h`harborReadOnly, h`scratch, h`stuck, h`tags
    modifies h`snapshots, h`root, h`lost, h`status, h`failures, h`trail, h`dropped
    ensures h.faults >= old(h.faults) && h.stuck >= old(h.stuck) && h.lost >= old(h.lost)
    ensures SameButStacks(job, plan) && ValidNames(job.active)
    ensures job.active != [] ==> DiscoveredIn(job.cfg, old(h.node).files, job.active) && job.id !in old(h.root)
    ensures job.active == [] ==> o.Unpublished?
    ensures Behaved(job, rc, cal, old(ViewOf(h)), ViewOf(h), o, tr)
    ensures Published(o) || o.Unpublished? || o.SelfRejected?
    ensures Published(o) <==> h.partial.None?
    ensures job.active != [] && !o.Done? && h.lost == old(h.lost) ==> FailureNoted(job, Remains(h, job, o), h.failures)
    ensures o.Done? || job.active == [] ==> h.failures == old(h.failures)
    ensures h.faults == old(h.faults) && old(h.clock) > 0 && ValidID(job.id) && o.SelfRejected? ==>
      !Legible(job.codec, Remains(h, job, o))
    ensures h.faults == old(h.faults) && NewRunReady(plan, rc, cal, h.btrfs, h.offline, old(ViewOf(h))) ==> o.Done? || o.SelfRejected?
  {
    hide CaptureReady, Prepared, Legible;
    hide ServicesOnly, Existed, ValidID, FailureNoted, Lossless, GoodLayout, Lookup, Active, Untouched, Accepted;
    hide DeliveredRun, InEveryRepository, AllMarked, RotationDone;
    job, tr := plan, NoTrace(h.node, []);
    ServicesOnlyNot(job.cfg, h.node);
    if job.id in h.root {
      return Unpublished, job, tr;
    }
    var read := h.Attempt();
    if !read || !IsDirAt(h.node.files, STACKS) {
      return Unpublished, job, tr;
    }
    var active := Discover(job.cfg.switches, Lookup(h.node.files, STACKS).value.kids);
    job := job.(active := active);
    if active == [] {
      return Unpublished, job, tr;
    }
    DiscoveredNames(job.cfg, h.node.files, active);
    if NewRunReady(plan, rc, cal, h.btrfs, h.offline, old(ViewOf(h))) {
      DiscoveredReady(plan, active, rc, cal, h.btrfs, h.offline, old(ViewOf(h)), ViewOf(h));
    }
    o, tr := RecordedRun(h, job, rc, cal);
  }

  /** The unpublished directory goes, unless it was renamed. */
  method RemovePartial(h: Host)
    modifies h`partial, h`faults, h`stuck, h`dropped
    ensures h.faults >= old(h.faults) && h.stuck >= old(h.stuck)
    ensures h.stuck == old(h.stuck) ==> h.partial.None?
    ensures h.dropped == old(h.partial)
  {
    h.dropped := h.partial;
    var ok := h.Attempt();
    if ok {
      h.partial := None;
    } else {
      h.partial := *;
      h.stuck := h.stuck + 1;
    }
  }

  /** What a run was, for its contract: the job, the trace, and what was left of the
      new entry when the failure record was made. */
  datatype Account = Account(job: Job, tr: Trace, seen: Tree)

  /** The contract of a run, from the outside. */
  ghost predicate RunContract(cfg: Config, rc: ResticConfig, cal: Calendar, before: View, after: View, o: Outcome, a: Account)
  {
    && a.job.cfg == cfg && ValidNames(a.job.active) && Behaved(a.job, rc, cal, before, after, o, a.tr)
    // delivery off the node is required, a remote repository is configured, the entry is new
    && (Published(o) ==> RemoteRequired(rc))
    && (Published(o) ==> DiscoveredIn(cfg, before.node.files, a.job.active) && a.job.id !in before.shelf.root)
    // the unpublished directory
    && (after.stuck == before.stuck && !o.Leaked? ==> after.partial.None?)
    && (o.Leaked? ==> after.faults > before.faults)
    // the failure record
    && (!o.Done? && a.job.active != [] && after.lost == before.lost ==> FailureNoted(a.job, a.seen, after.failures))
    && (!o.Done? && a.job.active != [] ==> SeenAt(a, o, after))
    // the run rejects its own manifest only for a file whose name is no text
    && (after.faults == before.faults && before.clock > 0 && ValidID(a.job.id) && o.SelfRejected? ==> !Legible(a.job.codec, a.seen))
    && (o.Done? || a.job.active == [] ==> after.failures == before.failures)
  }

  /** What a failure record was made of: the published entry, or nothing if rotation
      took that, or else the unpublished directory that was removed afterwards. */
  predicate SeenAt(a: Account, o: Outcome, after: View)
  {
    if Published(o) then a.seen == if a.job.id in after.shelf.root then after.shelf.root[a.job.id] else EMPTY_DIR
    else after.dropped.Some? && a.seen == Dir(after.dropped.value, MODE_0700)
  }

  /** A run that touched nothing but, perhaps, a directory it could not protect. */
  lemma Idle(rc: ResticConfig, cal: Calendar, before: View, after: View, o: Outcome, a: Account)
    requires a.job.active == []
    requires (o.Refused? && after.partial.None?) || (o.Leaked? && after.faults > before.faults)
    requires before == after.(partial := before.partial, clock := before.clock, faults := before.faults)
    ensures RunContract(a.job.cfg, rc, cal, before, after, o, a)
  {
    hide ServicesOnly, Existed, Untouched, Accepted, DeliveredRun, InEveryRepository, AllMarked, RotationDone;
    ServicesOnlyNot(a.job.cfg, before.node);
  }

  /** `MkdirTemp`, then restricting the mode. */
  method MakePartial(h: Host) returns (made: bool, shielded: bool)
    requires h.partial.None?
    modifies h`partial, h`faults
    ensures h.faults >= old(h.faults)
    ensures h.partial == if made then Some(map[]) else None
    ensures shielded ==> made
    ensures !shielded ==> h.faults > old(h.faults)
  {
    shielded := false;
    made := h.Attempt();
    if made {
      h.partial := Some(map[]);
      shielded := h.Attempt();
    }
  }

  /** With the directory made and protected: it is removed on every way out. */
  method WithPartial(h: Host, plan: Job, rc: ResticConfig, cal: Calendar) returns (o: Outcome, ghost a: Account)
    requires Lossless(plan.codec) && GoodLayout(plan.cfg) && plan.active == [] && h.partial == Some(map[]) && h.holding
    requires RemoteRequired(rc)
    modifies h`node, h`running, h`partial, h`faults, h`clock, h`restarts, h`harborReadOnly, h`scratch, h`stuck, h`tags
    modifies h`snapshots, h`root, h`lost, h`status, h`failures, h`trail, h`dropped
    ensures h.faults >= old(h.faults) && h.stuck >= old(h.stuck) && !o.Leaked?
    ensures RunContract(plan.cfg, rc, cal, old(ViewOf(h)), ViewOf(h), o, a)
    ensures h.faults == old(h.faults) && NewRunReady(plan, rc, cal, h.btrfs, h.offline, old(ViewOf(h))) ==> o.Done? || o.SelfRejected?
    ensures h.faults == old(h.faults) && old(h.clock) > 0 && ValidID(plan.id) && o.SelfRejected? ==> !Legible(plan.codec, a.seen)
  {
    hide NewRunReady, Legible;
    hide ServicesOnly, Existed, ValidID, FailureNoted, Ends, TidiedUp, DiscoveredIn, Lossless, GoodLayout, SomeNamedRemote, IsRemote;
    ghost var tr;
    var job;
    o, job, tr := NamedRun(h, plan, rc, cal);
    a := Account(job, tr, Remains(h, job, o));
    if !Published(o) {
      RemovePartial(h);
    }
  }

  /** A run before it has named its backup and found its stacks. */
  function NewJob(cfg: Config, tools: Tools, codec: Codec, images: bool): Job
  {
    Job(cfg, tools, codec, "", [], images)
  }

  /** Everything a run needs in order to succeed, as a caller could check it: the
      settings, the clock, the stacks, the backups already there; with images also free
      space, a clean repository with a revision, and an image to archive. */
  ghost predicate CanBackUp(plan: Job, rc: ResticConfig, cal: Calendar, btrfs: bool, horizon: Time, offline: Offline, v: View)
  {
    && RemoteRequired(rc) && Usable(rc) && v.clock > 0 && (plan.images ==> offline.roomy)
    && OlderThan(plan.codec, cal, KindOf(plan.images), v.shelf.root, v.clock)
    && (forall t :: v.clock <= t < horizon ==> ValidID(cal.format(t)) && cal.format(t) !in v.shelf.root)
    && StacksReady(plan, btrfs, offline, v.node, v.running)
  }

  lemma OnlyWeb(plan: Job, offline: Offline, files: Tree, stacks: Tree, active: seq<string>)
    requires DiscoveredIn(plan.cfg, files, active) && Lookup(files, STACKS) == Some(stacks) && stacks.Dir?
    requires stacks.kids.Keys == {"web"} && Plain(stacks.kids["web"])
    requires BundleReady(plan, offline) && plan.codec.text("x") && plan.tools.images(stacks.kids["web"]) == ["x"]
    ensures CaptureReady(plan.(active := active), true, offline, NodeState(files, map[], ""), {})
  {
    hide GiteaReady, HarborReady, Plain, Lookup;
    forall n | n in active ensures n == "web" {
      assert Active(plan.cfg.switches, stacks.kids, n);
    }
    LookupAppend(files, STACKS, ["web"]);
    OneLevel(stacks, "web");
    assert active[0] in active;
    forall i | 0 <= i < |active| && ValidEntry(active[i]) ensures PlainDirAt(files, STACKS + [active[i]]) {
      assert active[i] in active;
      assert Active(plan.cfg.switches, stacks.kids, active[i]);
    }
    OneImage(plan, files, stacks.kids["web"]);
  }

  lemma OneImage(plan: Job, files: Tree, web: Tree)
    requires Lookup(files, STACKS + ["web"]) == Some(web) && plan.codec.text("x") && plan.tools.images(web) == ["x"]
    ensures ImagesOf(plan.tools, plan.codec, files, "web") != {}
  {
    hide Lookup;
    assert "x"[0] == 'x' && !IsSpace("x"[0]);
    assert "x" in plan.tools.images(web) && "x" in ImagesOf(plan.tools, plan.codec, files, "web");
  }

  /** A node with one stack, which has no service of its own to capture. */
  lemma OneStackReady(plan: Job, offline: Offline) returns (files: Tree)
    requires BundleReady(plan, offline) && plan.codec.text("x") && forall t :: plan.tools.images(t) == ["x"]
    ensures StacksReady(plan, true, offline, NodeState(files, map[], ""), {})
  {
    var web := Dir(map[COMPOSE := File("", MODE_0600)], MODE_0700);
    var stacks := Dir(map["web" := web], MODE_0700);
    files := Dir(map["stacks" := stacks], MODE_0700);
    OneLevel(files, "stacks");
    hide Lookup, DiscoveredIn, CaptureReady, BundleReady;
    assert Active(plan.cfg.switches, stacks.kids, "web");
    forall active | DiscoveredIn(plan.cfg, files, active)
      ensures CaptureReady(plan.(active := active), true, offline, NodeState(files, map[], ""), {})
    {
      OnlyWeb(plan, offline, files, stacks, active);
    }
  }

  function Power(n: nat): nat { if n == 0 then 1 else 10 * Power(n - 1) }

  /** The last `width` decimal digits of `n`. */
  function LastDigits(n: nat, width: nat): (s: string)
    ensures |s| == width && forall i :: 0 <= i < width ==> Digit(s[i])
  {
    if width == 0 then "" else LastDigits(n / 10, width - 1) + [('0' as int + n % 10) as char]
  }

  lemma {:induction false} LastDigitsValue(n: nat, width: nat)
    requires n < Power(width)
    ensures DecimalValue(LastDigits(n, width)) == n
  {
    if width > 0 {
      LastDigitsValue(n / 10, width - 1);
      var s := LastDigits(n, width);
      assert s[..|s| - 1] == LastDigits(n / 10, width - 1);
    }
  }

  /** A calendar that numbers its instants: fourteen digits around a hyphen. */
  function Numbered(t: Time): (s: Stamp)
  {
    if t < 0 then ""
    else
      var d := LastDigits(t, 14);
      assert forall i :: 0 <= i < 14 ==> Digit(d[i]);
      d[..8] + "-" + d[8..]
  }

  function Unstamped(s: string): Option<Time>
  {
    if ValidID(s) then Some(DecimalValue(s[..8] + s[9..])) else None
  }

  lemma StampsInvert(t: Time)
    requires 0 <= t < Power(14)
    ensures ValidID(Numbered(t)) && Unstamped(Numbered(t)) == Some(t)
  {
    hide Power;
    LastDigitsValue(t, 14);
    var d := LastDigits(t, 14);
    hide LastDigits, DecimalValue;
    assert Numbered(t)[..8] + Numbered(t)[9..] == d;
    forall i | 0 <= i < 15 && i != 8 ensures Digit(Numbered(t)[i]) {
      assert Numbered(t)[i] == d[if i < 8 then i else i - 1];
    }
  }

  lemma SecureSample()
    ensures IsRemote("s3:https://x") && SecureEnough("s3:https://x", true)
  {
    assert SECURE[5] <= "s3:https://x";
  }

  /** The condition can be met, for either kind of run: one stack with one image, one
      remote repository, no backup yet, and a calendar that reads its own stamps back, up
      to the horizon. */
  lemma SomeRunCan(cfg: Config, codec: Codec, images: bool)
    returns (tools: Tools, rc: ResticConfig, cal: Calendar, horizon: Time, offline: Offline, v: View)
    requires Lossless(codec)
    ensures CanBackUp(NewJob(cfg, tools, codec, images), rc, cal, true, horizon, offline, v) && v.clock < horizon
    ensures Inverse(tools) && forall t :: v.clock <= t < horizon ==> cal.parse(cal.format(t)) == Some(t)
  {
    hide StacksReady, ValidID, IsRemote, SecureEnough, Counted, Inspect, SomeNamedRemote, Numbered, Unstamped;
    assert Ascii("x") && codec.text("x") && !IsSpace("x"[0]) && !Blank("x");
    tools := Tools(d => d, d => Some(d), d => d, d => Some(d), d => Some(d), t => ["x"]);
    offline := Offline(true, "x", true);
    var plan := NewJob(cfg, tools, codec, images);
    var files := OneStackReady(plan, offline);
    SecureSample();
    rc := ResticConfig([], "s3:https://x", "secret", map[], false, true, true);
    cal := Calendar(t => Numbered(t), s => Unstamped(s), s => 0);
    horizon := Power(14);
    assert horizon > 1;
    v := View(Store(map[], {}, map[]), NodeState(files, map[], ""), {}, 0, false, None, map[], None, {}, 1, 0, 0, 0, [], None);
    forall t | v.clock <= t < horizon ensures ValidID(cal.format(t)) && cal.parse(cal.format(t)) == Some(t) {
      StampsInvert(t);
    }
  }

  lemma CanDeliver(plan: Job, rc: ResticConfig, cal: Calendar, btrfs: bool, horizon: Time, offline: Offline, v: View)
    requires CanBackUp(plan, rc, cal, btrfs, horizon, offline, v)
    ensures RemoteRequired(rc) && (plan.images ==> offline.roomy)
  {
  }

  lemma StampedReady(plan: Job, job: Job, rc: ResticConfig, cal: Calendar, btrfs: bool, horizon: Time, offline: Offline,
                     before: View, now: View)
    requires CanBackUp(plan, rc, cal, btrfs, horizon, offline, before) && job == plan.(id := cal.format(now.clock))
    requires now == before.(clock := now.clock, faults := now.faults) && before.clock <= now.clock < horizon
    ensures NewRunReady(job, rc, cal, btrfs, offline, now.(partial := Some(map[])))
    ensures Paths.Base(job.id) == job.id && ValidID(job.id) && now.clock > 0
  {
    hide CountedIds, Inspect, Usable, Lookup, Active, DiscoveredIn, DefinitionsReady, RemoteRequired, StacksReady;
    assert ValidID(cal.format(now.clock));
    ValidIDIsGood(job.id);
    hide ValidID;
    StaysPrepared(job, rc, cal, before.shelf.root, before.clock, now.clock);
    AnyStamp(job, plan, btrfs, offline, before.node, before.running);
  }

  lemma AnyStamp(a: Job, b: Job, btrfs: bool, offline: Offline, node: NodeState, running: set<string>)
    requires a == b.(id := a.id) && StacksReady(b, btrfs, offline, node, running)
    ensures StacksReady(a, btrfs, offline, node, running)
  {
    hide DefinitionsReady, DiscoveredIn, GiteaReady, HarborReady, Active, Lookup, SomeImageNamed;
    forall active | DiscoveredIn(a.cfg, node.files, active)
      ensures CaptureReady(a.(active := active), btrfs, offline, node, running)
    {
      assert CaptureReady(b.(active := active), btrfs, offline, node, running);
    }
  }

  /** What was done before, short of touching anything, leaves the contract. */
  lemma FromEarlier(cfg: Config, rc: ResticConfig, cal: Calendar, before: View, mid: View, after: View, o: Outcome, a: Account)
    requires RunContract(cfg, rc, cal, mid, after, o, a) && !o.Leaked?
    requires mid == before.(partial := mid.partial, clock := mid.clock, faults := mid.faults)
    requires before.faults <= mid.faults <= after.faults
    requires mid.faults == before.faults ==> mid.clock >= before.clock
    ensures RunContract(cfg, rc, cal, before, after, o, a)
  {
    hide ServicesOnly, Existed, ValidID, FailureNoted, Ends, TidiedUp, DiscoveredIn, SomeNamedRemote, IsRemote;
  }

  /** The backup root is made and protected; with images it also needs free space. */
  method RootReady(h: Host, images: bool) returns (ok: bool)
    modifies h`faults
    ensures h.faults >= old(h.faults)
    ensures ok ==> images ==> h.offline.roomy
    ensures h.faults == old(h.faults) && (images ==> h.offline.roomy) ==> ok
  {
    ok := h.Attempt();
    if ok && images {
      ok := h.Attempt();
      ok := ok && h.offline.roomy;
    }
  }

  /** With the delivery policy met: name the backup, make its directory, run. */
  method Stamped(h: Host, plan: Job, rc: ResticConfig, cal: Calendar) returns (o: Outcome, ghost a: Account)
    requires Lossless(plan.codec) && GoodLayout(plan.cfg) && h.partial.None? && h.holding
    requires RemoteRequired(rc) && plan.active == []
    modifies h`node, h`running, h`partial, h`faults, h`clock, h`restarts, h`harborReadOnly, h`scratch, h`stuck, h`tags
    modifies h`snapshots, h`root, h`lost, h`status, h`failures, h`trail, h`dropped
    ensures h.faults >= old(h.faults) && h.stuck >= old(h.stuck)
    ensures RunContract(plan.cfg, rc, cal, old(ViewOf(h)), ViewOf(h), o, a)
    ensures h.faults == old(h.faults) && CanBackUp(plan, rc, cal, h.btrfs, h.horizon, h.offline, old(ViewOf(h))) ==>
      o.Done? || (o.SelfRejected? && !Legible(plan.codec, a.seen))
  {
    hide CanBackUp, NewRunReady, RunContract, RemoteRequired, Legible, NoCuts;
    hide ServicesOnly, Existed, ValidID, FailureNoted, Ends, TidiedUp, DiscoveredIn, Lossless, GoodLayout, Paths.Base;
    var now := h.Now();
    var job := plan.(id := cal.format(now));
    a := Account(job, NoTrace(h.node, []), EMPTY_DIR);
    if CanBackUp(plan, rc, cal, h.btrfs, h.horizon, h.offline, old(ViewOf(h))) && old(h.clock) <= now < h.horizon {
      CanDeliver(plan, rc, cal, h.btrfs, h.horizon, h.offline, old(ViewOf(h)));
      StampedReady(plan, job, rc, cal, h.btrfs, h.horizon, h.offline, old(ViewOf(h)), ViewOf(h));
    }
    var ready := RootReady(h, job.images);
    if Paths.Base(job.id) != job.id || !ready {
      Idle(rc, cal, old(ViewOf(h)), ViewOf(h), Refused, a);
      return Refused, a;
    }
    var made, shielded := MakePartial(h);
    if !shielded {
      o := if made then Leaked else Refused;
      Idle(rc, cal, old(ViewOf(h)), ViewOf(h), o, a);
      return;
    }
    ghost var mid := ViewOf(h);
    o, a := WithPartial(h, job, rc, cal);
    FromEarlier(plan.cfg, rc, cal, old(ViewOf(h)), mid, ViewOf(h), o, a);
  }

  /** Under the lock. */
  method Locked(h: Host, plan: Job, rc: ResticConfig, cal: Calendar) returns (o: Outcome, ghost a: Account)
    requires Lossless(plan.codec) && GoodLayout(plan.cfg) && h.partial.None? && h.holding && plan.active == []
    modifies h`node, h`running, h`partial, h`faults, h`clock, h`restarts, h`harborReadOnly, h`scratch, h`stuck, h`tags
    modifies h`snapshots, h`root, h`lost, h`status, h`failures, h`trail, h`dropped
    ensures h.faults >= old(h.faults) && h.stuck >= old(h.stuck)
    ensures RunContract(plan.cfg, rc, cal, old(ViewOf(h)), ViewOf(h), o, a)
    ensures h.faults == old(h.faults) && CanBackUp(plan, rc, cal, h.btrfs, h.horizon, h.offline, old(ViewOf(h))) ==>
      o.Done? || (o.SelfRejected? && !Legible(plan.codec, a.seen))
  {
    hide CanBackUp, RunContract, Lossless, GoodLayout, SomeNamedRemote, IsRemote;
    a := Account(plan, NoTrace(h.node, []), EMPTY_DIR);
    var loaded := h.Attempt();
    if loaded {
      // validation passed, next the delivery policy
      loaded := h.Attempt();
    }
    var somewhere := HasRemoteRepository(rc);
    if CanBackUp(plan, rc, cal, h.btrfs, h.horizon, h.offline, old(ViewOf(h))) {
      CanDeliver(plan, rc, cal, h.btrfs, h.horizon, h.offline, old(ViewOf(h)));
    }
    if !loaded || !rc.requireRemote || !somewhere {
      Idle(rc, cal, old(ViewOf(h)), ViewOf(h), Refused, a);
      return Refused, a;
    }
    o, a := Stamped(h, plan, rc, cal);
  }

  /** `Run`. The lock is given back on every path. */
  method Run(h: Host, cfg: Config, tools: Tools, codec: Codec, rc: ResticConfig, cal: Calendar, images: bool)
    returns (o: Outcome, ghost a: Account)
    requires Lossless(codec) && GoodLayout(cfg) && h.partial.None? && !h.holding
    modifies h`holding, h`node, h`running, h`partial, h`faults, h`clock, h`restarts, h`harborReadOnly, h`scratch, h`stuck
    modifies h`tags, h`snapshots, h`root, h`lost, h`status, h`failures, h`trail, h`dropped
    ensures !h.holding
    ensures RunContract(cfg, rc, cal, old(ViewOf(h)), ViewOf(h), o, a)
    ensures h.mode != Some("normal") ==> o.Refused? && Shelf(h) == old(Shelf(h)) && h.node == old(h.node)
    ensures h.mode == Some("normal") && CanBackUp(NewJob(cfg, tools, codec, images), rc, cal, h.btrfs, h.horizon, h.offline, old(ViewOf(h))) ==>
      o.Done? || h.faults > old(h.faults) || (o.SelfRejected? && !Legible(codec, a.seen))
  {
    hide CanBackUp;
    hide ServicesOnly, Existed, ValidID, FailureNoted, Ends, TidiedUp, DiscoveredIn, Lossless, GoodLayout, SomeNamedRemote, IsRemote;
    var plan := NewJob(cfg, tools, codec, images);
    a := Account(plan, NoTrace(h.node, []), EMPTY_DIR);
    if h.mode != Some("normal") {
      Idle(rc, cal, old(ViewOf(h)), ViewOf(h), Refused, a);
      return Refused, a;
    }
    var locked := h.Attempt();
    if !locked {
      Idle(rc, cal, old(ViewOf(h)), ViewOf(h), Refused, a);
      return Refused, a;
    }
    h.holding := true;
    o, a := Locked(h, plan, rc, cal);
    h.holding := false;
  }

  /** A delivered entry strictly newer than every other of its kind is untouched by
      the rotation that follows, even one that fails midway. */
  lemma NewestBackupStays(job: Job, cal: Calendar, before: map<string, Tree>, after: map<string, Tree>,
                          delivered: Tree, victims: set<string>)
    requires RotatedAround(job, cal, before[job.id := delivered], after, victims)
    requires NewestOfKind(job, cal, before[job.id := delivered])
    ensures job.id in after && after[job.id] == delivered
  {
    hide Inspect, Keep;
    var root := before[job.id := delivered];
    if victims != {} {
      hide CountedIds;
      if job.id in CountedIds(job.codec, KindOf(job.images), root) {
        NewestSurvives(job.codec, cal, KindOf(job.images), Keep(job.cfg, job.images), root, victims, job.id);
      }
    }
    assert job.id !in victims;
  }

  /** A run that reports success has put a copy off the node, unless repositories are
      named, none of them is remote and only the unvisited legacy one is. The first
      two conditions are what `RunContract` says of such a run. */
  lemma RemoteCopyExists(rc: ResticConfig, id: string, snapshots: set<(string, string)>)
    requires RemoteRequired(rc)
    requires InEveryRepository(rc, id, snapshots)
    requires rc.repositories == [] || !IsRemote(rc.repository) || SomeNamedRemote(rc)
    ensures exists r :: IsRemote(r) && (r, ResticID(id)) in snapshots
  {
    hide IsRemote, SomeNamedRemote, Visited;
    RemoteClaimExactly(rc);
    var r :| r in Visited(rc) && IsRemote(r);
    assert (r, ResticID(id)) in snapshots;
  }
}
