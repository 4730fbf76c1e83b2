/** The admin node as the commands see it: files, databases, containers, the
    backup root. Every external step may fail; a failing step leaves arbitrary
    debris where it was writing, and is counted. */
module Hosts {
  import opened Text
  import opened Trees
  import opened Edits
  import opened StackScope
  import opened Manifests

  /** The state that backups capture and restores replace. `files` is the admin
      root; `dbs` maps a database container to its contents. */
  datatype NodeState = NodeState(files: Tree, dbs: map<string, Data>, vault: Data)

  /** Dump and restore programs, as functions on contents; and the lines that
      `docker compose config --images` prints for a stack definition, trimmed. */
  datatype Tools = Tools(
    dump: Data -> Data, load: Data -> Option<Data>,
    save: Data -> Data, resume: Data -> Option<Data>,
    resetAdmin: Data -> Option<Data>, images: Tree -> seq<string>)

  ghost predicate Inverse(t: Tools)
  {
    && (forall d :: t.load(t.dump(d)) == Some(d))
    && (forall d :: t.resume(t.save(d)) == Some(d))
  }

  datatype Config = Config(
    giteaStack: Path, switches: Switches,
    requireBtrfs: bool, requireReadOnly: bool, harborPassword: bool, baoToken: bool,
    localRetention: int, offlineRetention: int)

  const STACKS: Path := ["stacks"]
  const GITEA_FILES: Path := ["data", "gitea"]
  const HARBOR_FILES: Path := ["data", "harbor"]
  const ENV: Path := ["env"]

  const KEYCLOAK_DB := "keycloak-db"
  const GITEA_DB := "gitea-db"
  const HARBOR_DB := "harbor-db"

  /** The Gitea stack directory lies clear of everything else that is captured. */
  predicate GoodLayout(cfg: Config)
  {
    && cfg.giteaStack != []
    && Apart(cfg.giteaStack, STACKS) && Apart(cfg.giteaStack, ENV)
    && Apart(cfg.giteaStack, GITEA_FILES) && Apart(cfg.giteaStack, HARBOR_FILES)
  }

  predicate PlainDirAt(t: Tree, p: Path)
  {
    IsDirAt(t, p) && Plain(Lookup(t, p).value)
  }

  const HARBOR_PARTS: set<Path> := {["registry"], ["core"], ["job_logs"], ["trivy-adapter", "reports"]}
  const REGISTRY: Path := ["registry"]

  predicate SameDb(a: map<string, Data>, b: map<string, Data>, db: string)
  {
    (db in a <==> db in b) && (db in a ==> a[db] == b[db])
  }

  /** Nothing but files and directories at and below a Harbor sub-path. */
  predicate PartPlain(files: Tree, s: Path)
  {
    Lookup(files, HARBOR_FILES + s).Some? ==> Plain(Lookup(files, HARBOR_FILES + s).value)
  }

  predicate PartsPlain(files: Tree, parts: set<Path>)
  {
    forall s :: s in parts ==> PartPlain(files, s)
  }

  // ------------------------------------------- what services write meanwhile

  /** The service directories keep the kind of thing they are: directories, and free
      of special files where they were. */
  predicate SameShape(cfg: Config, a: Tree, b: Tree)
  {
    && (IsDirAt(b, cfg.giteaStack) <==> IsDirAt(a, cfg.giteaStack))
    && (IsDirAt(b, GITEA_FILES) <==> IsDirAt(a, GITEA_FILES))
    && (PlainDirAt(a, cfg.giteaStack) ==> PlainDirAt(b, cfg.giteaStack))
    && (PlainDirAt(a, GITEA_FILES) ==> PlainDirAt(b, GITEA_FILES))
    && (IsDirAt(a, HARBOR_FILES) ==> IsDirAt(b, HARBOR_FILES))
    && (IsDirAt(a, HARBOR_FILES + REGISTRY) ==> IsDirAt(b, HARBOR_FILES + REGISTRY))
    && (PartsPlain(a, HARBOR_PARTS) ==> PartsPlain(b, HARBOR_PARTS))
    && b.Dir? == a.Dir?
  }

  /** Only what the services themselves write differs: their databases, their files,
      OpenBao's store. */
  ghost predicate ServicesOnly(cfg: Config, a: NodeState, b: NodeState)
  {
    && b.dbs.Keys == a.dbs.Keys
    && (forall n :: n in a.dbs && n != GITEA_DB && n != KEYCLOAK_DB && n != HARBOR_DB ==> b.dbs[n] == a.dbs[n])
    && (forall q :: Apart(cfg.giteaStack, q) && Apart(GITEA_FILES, q) && Apart(HARBOR_FILES, q) ==>
         Lookup(b.files, q) == Lookup(a.files, q))
    && SameShape(cfg, a.files, b.files)
  }

  predicate SameGitea(cfg: Config, a: NodeState, b: NodeState)
  {
    && SameDb(a.dbs, b.dbs, GITEA_DB)
    && Lookup(b.files, cfg.giteaStack) == Lookup(a.files, cfg.giteaStack)
    && Lookup(b.files, GITEA_FILES) == Lookup(a.files, GITEA_FILES)
  }

  ghost predicate SameHarbor(a: NodeState, b: NodeState)
  {
    && SameDb(a.dbs, b.dbs, HARBOR_DB)
    && forall s :: Lookup(b.files, HARBOR_FILES + s) == Lookup(a.files, HARBOR_FILES + s)
  }

  /** What may have happened on the node between two steps: every service writes its
      own data, Gitea only while its container runs, Harbor only while it is writable. */
  ghost predicate Moved(cfg: Config, a: NodeState, b: NodeState, gitea: bool, harbor: bool)
  {
    ServicesOnly(cfg, a, b) && (!gitea ==> SameGitea(cfg, a, b)) && (!harbor ==> SameHarbor(a, b))
  }

  lemma MovedNot(cfg: Config, a: NodeState, gitea: bool, harbor: bool)
    ensures Moved(cfg, a, a, gitea, harbor)
  {
    hide Lookup, IsDirAt, PlainDirAt, PartsPlain;
  }

  lemma MovedOn(cfg: Config, a: NodeState, b: NodeState, c: NodeState, gitea: bool, harbor: bool)
    requires Moved(cfg, a, b, gitea, harbor) && Moved(cfg, b, c, gitea, harbor)
    ensures Moved(cfg, a, c, gitea, harbor)
  {
    hide Lookup, IsDirAt, PlainDirAt, PartsPlain;
  }

  lemma ServicesOnlyOn(cfg: Config, a: NodeState, b: NodeState, c: NodeState)
    requires ServicesOnly(cfg, a, b) && ServicesOnly(cfg, b, c)
    ensures ServicesOnly(cfg, a, c)
  {
    hide Lookup, IsDirAt, PlainDirAt, PartsPlain;
  }

  lemma ServicesOnlyNot(cfg: Config, a: NodeState)
    ensures ServicesOnly(cfg, a, a)
  {
    hide Lookup, IsDirAt, PlainDirAt, PartsPlain;
  }

  /** A moment of the node: its state, its running containers, Harbor's mode. */
  datatype Moment = Moment(node: NodeState, running: set<string>, readOnly: bool)

  /** Between the two histories the node was in this state; with Gitea down, or with
      Harbor read-only, if so asked. */
  ghost predicate Passed(before: seq<Moment>, after: seq<Moment>, node: NodeState, down: bool, still: bool)
  {
    exists i :: |before| <= i < |after| && after[i].node == node
      && (down ==> "gitea" !in after[i].running) && (still ==> after[i].readOnly)
  }

  lemma PassedLast(before: seq<Moment>, after: seq<Moment>, m: Moment)
    requires before + [m] <= after && |after| == |before| + 1
    ensures Passed(before, after, m.node, "gitea" !in m.running, m.readOnly)
  {
    assert after[|before|] == m;
  }

  lemma PassedWithin(a: seq<Moment>, b: seq<Moment>, c: seq<Moment>, d: seq<Moment>, node: NodeState, down: bool,
                     still: bool)
    requires Passed(b, c, node, down, still) && |a| <= |b| && c <= d
    ensures Passed(a, d, node, down, still)
  {
    var i :| |b| <= i < |c| && c[i].node == node
      && (down ==> "gitea" !in c[i].running) && (still ==> c[i].readOnly);
    assert d[i] == c[i];
  }

  /** What only a backup with images asks for: whether enough space is free, and the
      repository's revision, trimmed, and whether it has no tracked changes. */
  datatype Offline = Offline(roomy: bool, head: string, clean: bool)

  class Host {
    var mode: Option<string>           // the mode file, None when unreadable
    var holding: bool                  // this process holds the operation lock
    var node: NodeState
    var running: set<string>           // running containers
    var root: map<string, Tree>        // entries of the backup root
    var partial: Option<map<Name, Tree>>  // the unpublished directory of this run
    var failures: map<string, Data>    // manifests under the failure directory
    var tags: set<string>              // image tags
    var scratch: Option<Data>          // OpenBao's snapshot scratch file
    var harborReadOnly: bool
    var restarts: nat                  // start commands issued for Gitea
    var snapshots: set<(string, string)>  // repository and backup id
    var status: map<string, string>    // last success marker per kind
    var timersActive: set<string>      // started timers
    var timersEnabled: set<string>     // timers started at boot
    var timerStops: seq<seq<string>>   // stop commands issued for timers
    var timerStarts: seq<seq<string>>  // start commands issued for timers
    var clock: Time
    const btrfs: bool                  // Gitea's and Harbor's data are Btrfs subvolumes
    const horizon: Time                // from here on a stamp has more than fifteen characters
    const offline: Offline             // free space and repository

    ghost var faults: nat              // external steps that failed
    ghost var stuck: nat               // of these, clean-up removals
    ghost var lost: nat                // of these, manifest writes whose error is dropped
    ghost var modeFaults: nat          // of these, writes of the mode file
    ghost var trail: seq<Moment>       // the node, as it was whenever something was read from it
    ghost var dropped: Option<map<Name, Tree>>  // the unpublished directory last removed

    /** Any external step: it works, or it fails and that is counted. */
    method Attempt() returns (ok: bool)
      modifies this`faults
      ensures faults == old(faults) + if ok then 0 else 1
    {
      ok := *;
      if !ok {
        faults := faults + 1;
      }
    }

    /** The wall clock. Going back counts as a fault, and so does a year past 9999. */
    method Now() returns (t: Time)
      modifies this`faults, this`clock
      ensures clock == t
      ensures faults == old(faults) + if old(clock) <= t < horizon then 0 else 1
    {
      t := *;
      if t < clock || t >= horizon {
        faults := faults + 1;
      }
      clock := t;
    }

    // ------------------------------------------------------ meanwhile on the node

    /** Takes the present moment down. */
    ghost method Look()
      modifies this`trail
      ensures trail == old(trail) + [Moment(node, running, harborReadOnly)]
    {
      trail := trail + [Moment(node, running, harborReadOnly)];
    }

    /** What the services may do to their own data between two steps. Called before
        anything is read from the node. */
    method Drift(cfg: Config)
      requires GoodLayout(cfg)
      modifies this`node, this`trail
      ensures Moved(cfg, old(node), node, "gitea" in running, !harborReadOnly)
      ensures trail == old(trail) + [Moment(node, running, harborReadOnly)]
    {
      hide ServicesOnly, SameGitea, SameHarbor;
      ghost var gitea, harbor := "gitea" in running, !harborReadOnly;
      MovedNot(cfg, node, gitea, harbor);
      ghost var start := node;
      if "gitea" in running {
        DriftFiles(cfg, cfg.giteaStack);
        ghost var first := node;
        DriftFiles(cfg, GITEA_FILES);
        MovedOn(cfg, start, first, node, gitea, harbor);
        ghost var second := node;
        DriftDb(cfg, GITEA_DB);
        MovedOn(cfg, start, second, node, gitea, harbor);
      }
      if !harborReadOnly {
        ghost var third := node;
        DriftFiles(cfg, HARBOR_FILES);
        MovedOn(cfg, start, third, node, gitea, harbor);
        ghost var fourth := node;
        DriftDb(cfg, HARBOR_DB);
        MovedOn(cfg, start, fourth, node, gitea, harbor);
      }
      ghost var fifth := node;
      DriftDb(cfg, KEYCLOAK_DB);
      MovedOn(cfg, start, fifth, node, gitea, harbor);
      Look();
    }

    /** The one service that owns `db` writes to it; OpenBao to its store. */
    method DriftDb(cfg: Config, db: string)
      requires db == GITEA_DB || db == HARBOR_DB || db == KEYCLOAK_DB
      modifies this`node
      ensures db == GITEA_DB ==> Moved(cfg, old(node), node, true, false)
      ensures db == HARBOR_DB ==> Moved(cfg, old(node), node, false, true)
      ensures db == KEYCLOAK_DB ==> Moved(cfg, old(node), node, false, false)
    {
      hide Lookup, IsDirAt, PlainDirAt, PartsPlain;
      var value: Data, vault: Data := *, *;
      if db in node.dbs {
        node := node.(dbs := node.dbs[db := value]);
      }
      node := node.(vault := vault);
    }

    /** The files of one service become whatever it makes of them. */
    method DriftFiles(cfg: Config, p: Path)
      requires GoodLayout(cfg) && (p == cfg.giteaStack || p == GITEA_FILES || p == HARBOR_FILES)
      modifies this`node
      ensures p == HARBOR_FILES ==> Moved(cfg, old(node), node, false, true)
      ensures p != HARBOR_FILES ==> Moved(cfg, old(node), node, true, false)
    {
      MovedNot(cfg, node, false, true);
      MovedNot(cfg, node, true, false);
      var t: Tree := *;
      if CanPut(node.files, p) && SameShape(cfg, node.files, PutAt(node.files, p, t)) {
        OwnFilesOnly(cfg, node, p, t);
        node := node.(files := PutAt(node.files, p, t));
      }
    }

    /** `containerExists`: a failing listing reads as an absent container. */
    method ContainerExists(name: string) returns (present: bool)
      modifies this`faults
      ensures faults >= old(faults)
      ensures present ==> name in running
      ensures faults == old(faults) ==> (present <==> name in running)
    {
      var listed := Attempt();
      present := listed && name in running;
    }

    // ------------------------------------------------- the unpublished directory

    /** Write `t` as entry `n` of the unpublished directory. */
    method Place(n: Name, t: Tree)
      requires partial.Some?
      modifies this`partial
      ensures partial == Some(old(partial.value)[n := t])
    {
      partial := Some(partial.value[n := t]);
    }

    /** What a failing step may leave of entry `n`: nothing new, or anything. */
    method Spoil(n: Name)
      requires partial.Some?
      modifies this`partial
      ensures partial.Some? && Others({n}, old(partial.value), partial.value)
    {
      var debris: Option<Tree> := *;
      if debris.Some? {
        Place(n, debris.value);
      }
    }

    /** `dumpPostgres`: a failing dump may leave a partial file behind. */
    method DumpPostgres(tools: Tools, n: Name, container: string) returns (ok: bool)
      requires partial.Some?
      modifies this`partial, this`faults
      ensures partial.Some? && Others({n}, old(partial.value), partial.value)
      ensures faults >= old(faults)
      ensures ok ==> container in node.dbs
      ensures ok ==> n in partial.value && partial.value[n] == File(tools.dump(node.dbs[container]), MODE_0600)
      ensures faults == old(faults) && container in node.dbs ==> ok
    {
      ok := Attempt();
      if !ok || container !in node.dbs {
        Spoil(n);
        return false;
      }
      Place(n, File(tools.dump(node.dbs[container]), MODE_0600));
    }

    /** `copyPathWithin`, entry by entry in directory order. */
    method CopyTree(src: Tree, preserveMode: bool) returns (ok: bool, dst: Tree)
      modifies this`faults
      ensures faults >= old(faults)
      ensures ok ==> Plain(src) && dst == CopyOf(src, preserveMode)
      ensures faults == old(faults) && Plain(src) ==> ok
      decreases src, 1
    {
      ok := Attempt();
      if src.Special? || !ok {
        return false, EMPTY_DIR;
      }
      if src.File? {
        dst := File(src.data, if preserveMode then src.perm else OwnerData(src.perm));
      } else {
        var kids;
        ok, kids := CopyEntries(src, preserveMode);
        dst := Dir(kids, if preserveMode then src.perm else Owner(src.perm));
        if ok {
          CopiedAll(src, preserveMode, kids);
        }
      }
    }

    method CopyEntries(src: Tree, preserveMode: bool) returns (ok: bool, kids: map<Name, Tree>)
      requires src.Dir?
      modifies this`faults
      ensures faults >= old(faults)
      ensures ok ==> kids.Keys == src.kids.Keys && CopiedSome(src, preserveMode, kids)
      ensures faults == old(faults) && (forall n :: n in src.kids ==> Plain(src.kids[n])) ==> ok
      decreases src, 0
    {
      var names := SortedNames(src.kids.Keys);
      kids := map[];
      var k := 0;
      while k < |names|
        invariant 0 <= k <= |names|
        invariant faults >= old(faults)
        invariant CopiedSome(src, preserveMode, kids)
        invariant forall n :: n in kids <==> n in names[..k]
      {
        assert names[k] in names;
        assert names[..k + 1] == names[..k] + [names[k]];
        var n: Name := names[k];
        var sub;
        ok, sub := CopyTree(src.kids[n], preserveMode);
        kids := kids[n := sub];
        if !ok {
          return;
        }
        k := k + 1;
      }
      assert names[..|names|] == names;
      ok := true;
    }

    /** A Btrfs snapshot and reflink copy of `src`, where the source is a subvolume. If
        it is none, or cannot be asked, nothing is copied and that is no error. */
    method CopySnapshot(src: Tree) returns (used: bool, ok: bool, dst: Tree)
      modifies this`faults
      ensures faults >= old(faults)
      ensures used ==> ok && btrfs && dst == src
      ensures faults == old(faults) ==> ok && (btrfs ==> used)
    {
      used, ok, dst := false, true, EMPTY_DIR;
      if !btrfs {
        return;
      }
      var shown := Attempt();
      if !shown {
        return;
      }
      ok := Attempt();
      used, dst := ok, src;
    }

    // -------------------------------------------------------- mode and markers

    /** `mode.Set`: temporary file and rename, so the old value stays on failure. */
    method SetMode(value: string) returns (ok: bool)
      modifies this`mode, this`faults, this`modeFaults
      ensures ok ==> mode == Some(value) && faults == old(faults) && modeFaults == old(modeFaults)
      ensures !ok ==> mode == old(mode) && faults > old(faults) && modeFaults > old(modeFaults)
    {
      ok := Attempt();
      if ok {
        mode := Some(value);
      } else {
        modeFaults := modeFaults + 1;
      }
    }
  }

  function CopyOf(src: Tree, preserveMode: bool): Tree
  {
    if preserveMode then src else Masked(src)
  }

  predicate CopiedSome(src: Tree, preserveMode: bool, kids: map<Name, Tree>)
    requires src.Dir?
  {
    forall n :: n in kids ==> n in src.kids && Plain(src.kids[n]) && kids[n] == CopyOf(src.kids[n], preserveMode)
  }

  lemma CopiedAll(src: Tree, preserveMode: bool, kids: map<Name, Tree>)
    requires src.Dir? && CopiedSome(src, preserveMode, kids) && kids.Keys == src.kids.Keys
    ensures Plain(src)
    ensures Dir(kids, if preserveMode then src.perm else Owner(src.perm)) == CopyOf(src, preserveMode)
  {
    var r := CopyOf(src, preserveMode);
    assert r.Dir? && r.kids.Keys == kids.Keys;
    forall n | n in kids ensures r.kids[n] == kids[n] { }
    assert r.kids == kids;
  }

  /** Outside `names` the two directories have the same entries. */
  ghost predicate Others(names: set<string>, a: map<Name, Tree>, b: map<Name, Tree>)
  {
    forall n: Name :: n !in names ==> (n in a <==> n in b) && (n in a ==> a[n] == b[n])
  }

  /** A put below one service's directory is the doing of that service alone. */
  lemma OwnFilesOnly(cfg: Config, node: NodeState, p: Path, t: Tree)
    requires GoodLayout(cfg) && (p == cfg.giteaStack || p == GITEA_FILES || p == HARBOR_FILES)
    requires CanPut(node.files, p) && SameShape(cfg, node.files, PutAt(node.files, p, t))
    ensures var next := node.(files := PutAt(node.files, p, t));
      (p == HARBOR_FILES ==> Moved(cfg, node, next, false, true)) && (p != HARBOR_FILES ==> Moved(cfg, node, next, true, false))
  {
    hide SameShape, Lookup, PutAt;
    var next := node.(files := PutAt(node.files, p, t));
    forall q | Apart(p, q) ensures Lookup(next.files, q) == Lookup(node.files, q) {
      PutElsewhere(node.files, p, t, q);
    }
    HomesApart(cfg);
    if p != HARBOR_FILES {
      forall s ensures Apart(p, HARBOR_FILES + s) {
        BelowApart(p, HARBOR_FILES, s);
      }
    }
  }

  lemma HomesApart(cfg: Config)
    requires GoodLayout(cfg)
    ensures Apart(cfg.giteaStack, HARBOR_FILES) && Apart(HARBOR_FILES, cfg.giteaStack)
    ensures Apart(GITEA_FILES, HARBOR_FILES) && Apart(HARBOR_FILES, GITEA_FILES)
  {
    assert GITEA_FILES[1] != HARBOR_FILES[1];
  }

  lemma BelowApart(p: Path, q: Path, s: Path)
    requires Apart(p, q)
    ensures Apart(p, q + s)
  {
  }
}
