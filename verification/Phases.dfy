/** The capture steps of one backup run, each filling its own entries of the
    unpublished directory. */
module Phases {
  import opened Text
  import opened Trees
  import opened Edits
  import opened Manifests
  import opened Capture
  import opened ImageRewrite
  import opened ImageTags
  import opened Hosts
  import opened GiteaBackup

  /** What one run works with. */
  datatype Job = Job(cfg: Config, tools: Tools, codec: Codec, id: Stamp, active: seq<string>, images: bool)

  // ------------------------------------------------------- what a step leaves

  predicate PairwiseApart(parts: set<Path>)
  {
    forall p, q :: p in parts && q in parts && p != q ==> Apart(p, q)
  }

  /** What is kept of one Harbor sub-path. A plain file there is taken from a
      snapshot only. */
  function PartCaptured(snapshot: bool, files: Tree, s: Path): Option<Tree>
  {
    var src := Lookup(files, HARBOR_FILES + s);
    if src.None? then None
    else if src.value.Dir? then Some(Captured(snapshot, src.value))
    else if snapshot then Some(Masked(src.value))
    else None
  }

  predicate PartsCaptured(snapshot: bool, files: Tree, parts: set<Path>, data: Tree)
  {
    forall s :: s in parts ==> Lookup(data, s) == PartCaptured(snapshot, files, s)
  }

  /** The dump shows the state `dump`. The files show `cut` if they come from a snapshot
      or, `whole`, from a Harbor that could not write; else no more is known than that
      there are some. */
  predicate HarborCaptured(tools: Tools, whole: bool, snapshot: bool, dump: NodeState, cut: NodeState, kids: map<Name, Tree>)
  {
    && DumpIn(tools, dump, kids, HARBOR_DUMP, HARBOR_DB)
    && HARBOR_DATA in kids && kids[HARBOR_DATA].Dir?
    && (whole || snapshot ==> HarborFilesIn(snapshot, cut, kids[HARBOR_DATA]))
  }

  predicate HarborFilesIn(snapshot: bool, cut: NodeState, data: Tree)
  {
    IsDirAt(cut.files, HARBOR_FILES + REGISTRY) && PartsCaptured(snapshot, cut.files, HARBOR_PARTS, data)
  }

  /** The node went through these states; if Harbor could not write they are one, with
      Harbor read-only. */
  ghost predicate HarborPassed(before: seq<Moment>, after: seq<Moment>, whole: bool, snapshot: bool, dump: NodeState,
                               cut: NodeState)
  {
    && Passed(before, after, dump, false, false)
    && (whole ==> dump == cut) && (whole || snapshot ==> Passed(before, after, cut, false, whole))
  }

  lemma HarborPassedWithin(a: seq<Moment>, b: seq<Moment>, c: seq<Moment>, d: seq<Moment>, whole: bool, snapshot: bool,
                           dump: NodeState, cut: NodeState)
    requires HarborPassed(b, c, whole, snapshot, dump, cut) && |a| <= |b| && c <= d
    ensures HarborPassed(a, d, whole, snapshot, dump, cut)
  {
    hide Passed;
    PassedWithin(a, b, c, d, dump, false, false);
    if whole || snapshot {
      PassedWithin(a, b, c, d, cut, false, whole);
    }
  }

  predicate VaultCaptured(tools: Tools, cut: NodeState, kids: map<Name, Tree>)
  {
    OPENBAO_SNAP in kids && kids[OPENBAO_SNAP] == File(tools.save(cut.vault), MODE_0600) && |tools.save(cut.vault)| > 0
  }

  /** A stack definition as the backup keeps it: verbatim, or rewritten to the
      archived image tags. */
  function Shown(t: Tree, images: bool, archives: seq<ImageArchive>): Tree
  {
    if images then RewrittenTree(t, archives) else t
  }

  predicate DefinitionKept(files: Tree, name: string, images: bool, archives: seq<ImageArchive>, defs: Tree)
  {
    ValidEntry(name) && IsDirAt(files, STACKS + [name]) &&
    Lookup(defs, [name]) == Some(Shown(Lookup(files, STACKS + [name]).value, images, archives))
  }

  predicate DefinitionsCaptured(active: seq<string>, images: bool, archives: seq<ImageArchive>, cut: NodeState,
                                kids: map<Name, Tree>)
  {
    DEFINITIONS in kids && kids[DEFINITIONS].Dir? &&
    forall i :: 0 <= i < |active| ==> DefinitionKept(cut.files, active[i], images, archives, kids[DEFINITIONS])
  }

  /** Every entry is made of files and directories only. */
  predicate AllPlain(kids: map<Name, Tree>)
  {
    forall n :: n in kids ==> Plain(kids[n])
  }

  lemma StillPlain(names: set<string>, a: map<Name, Tree>, b: map<Name, Tree>)
    requires AllPlain(a) && Others(names, a, b)
    requires forall n: Name :: n in names && n in b ==> Plain(b[n])
    ensures AllPlain(b)
  {
    hide Plain;
  }

  lemma {:induction false} MaskedPlain(t: Tree)
    requires Plain(t)
    ensures Plain(Masked(t))
  {
    match t
    case File(_, _) =>
    case Dir(kids, _) =>
      forall n | n in kids ensures Plain(Masked(kids[n])) {
        MaskedPlain(kids[n]);
      }
  }

  lemma CapturedPlain(snapshot: bool, t: Tree)
    requires Plain(t)
    ensures Plain(Captured(snapshot, t))
  {
    MaskedPlain(t);
  }

  lemma {:induction false} PutPlain(t: Tree, p: Path, x: Tree)
    requires Plain(t) && Plain(x) && CanPut(t, p)
    ensures Plain(PutAt(t, p, x))
    decreases p
  {
    if p != [] {
      var child := Child(t, p[0]);
      assert Plain(child);
      PutPlain(child, p[1..], x);
    }
  }

  // -------------------------------------------------------------- one database

  /** Keycloak's step: its database as it was at one moment. */
  method BackupKeycloak(h: Host, job: Job) returns (ok: bool, ghost cut: NodeState)
    requires h.partial.Some? && GoodLayout(job.cfg)
    modifies h`partial, h`faults, h`node, h`trail
    ensures h.partial.Some? && Others({KEYCLOAK_DUMP}, old(h.partial.value), h.partial.value)
    ensures h.faults >= old(h.faults)
    ensures ServicesOnly(job.cfg, old(h.node), h.node) && old(h.trail) <= h.trail
    ensures ok ==> DumpIn(job.tools, cut, h.partial.value, KEYCLOAK_DUMP, KEYCLOAK_DB)
    ensures Passed(old(h.trail), h.trail, cut, false, false)
    ensures h.faults == old(h.faults) && KEYCLOAK_DB in old(h.node).dbs ==> ok
  {
    h.Drift(job.cfg);
    cut := h.node;
    JustPassed(old(h.trail), h.trail, Moment(h.node, h.running, h.harborReadOnly));
    ok := h.DumpPostgres(job.tools, KEYCLOAK_DUMP, KEYCLOAK_DB);
  }

  lemma JustPassed(before: seq<Moment>, after: seq<Moment>, m: Moment)
    requires after == before + [m]
    ensures Passed(before, after, m.node, false, m.readOnly)
  {
    assert after[|before|] == m;
  }

  // ------------------------------------------------------------------- Harbor

  lemma HarborPartsApart()
    ensures PairwiseApart(HARBOR_PARTS) && REGISTRY in HARBOR_PARTS
    ensures forall s :: s in HARBOR_PARTS ==> s != []
  {
    var a: Path, b: Path, c: Path, d: Path := ["registry"], ["core"], ["job_logs"], ["trivy-adapter", "reports"];
    assert a[0] != b[0] && a[0] != c[0] && a[0] != d[0] && b[0] != c[0] && b[0] != d[0] && c[0] != d[0];
  }

  /** What a copy of one sub-path gives. A live one, made while Harbor may write to it,
      is a directory of which nothing more is known. */
  predicate PartTaken(live: bool, snapshot: bool, files: Tree, s: Path, got: Option<Tree>)
  {
    if live then (got.Some? <==> IsDirAt(files, HARBOR_FILES + s)) && (got.Some? ==> got.value.Dir?)
    else got == PartCaptured(snapshot, files, s)
  }

  predicate PartsTaken(live: bool, snapshot: bool, files: Tree, parts: set<Path>, data: Tree)
  {
    forall s :: s in parts ==> PartTaken(live, snapshot, files, s, Lookup(data, s))
  }

  /** A harbor-data directory in which the parts of `rest` are still missing. */
  predicate HalfFilled(live: bool, snapshot: bool, files: Tree, parts: set<Path>, rest: set<Path>, data: Tree)
  {
    && data.Dir? && rest <= parts
    && PartsTaken(live, snapshot, files, parts - rest, data)
    && forall s :: s in rest ==> Lookup(data, s) == None && CanPut(data, s)
  }

  lemma FillOne(live: bool, snapshot: bool, files: Tree, parts: set<Path>, rest: set<Path>, data: Tree, s: Path,
                copied: Tree)
    requires PairwiseApart(parts) && s in rest && s != [] && HalfFilled(live, snapshot, files, parts, rest, data)
    requires PartTaken(live, snapshot, files, s, Some(copied))
    ensures CanPut(data, s) && HalfFilled(live, snapshot, files, parts, rest - {s}, PutAt(data, s, copied))
  {
    hide PartTaken, Lookup, CanPut;
    var next := PutAt(data, s, copied);
    PutThenLookup(data, s, copied);
    forall q | q in parts && q != s
      ensures Lookup(next, q) == Lookup(data, q) && (CanPut(next, q) <==> CanPut(data, q))
    {
      PutElsewhere(data, s, copied, q);
      CanPutAfterPut(data, s, copied, q);
    }
  }

  /** The parts in any order, as a map's keys come. */
  method CopyParts(h: Host, live: bool, snapshot: bool, parts: set<Path>) returns (ok: bool, data: Tree)
    requires h.partial.Some? && HARBOR_DATA !in h.partial.value
    requires PairwiseApart(parts) && [] !in parts && (live ==> !snapshot)
    modifies h`partial, h`faults
    ensures h.partial.Some? && Others({HARBOR_DATA}, old(h.partial.value), h.partial.value)
    ensures h.faults >= old(h.faults)
    ensures ok ==> data.Dir? && PartsTaken(live, snapshot, h.node.files, parts, data)
    ensures ok && data != EMPTY_DIR ==> HARBOR_DATA in h.partial.value && h.partial.value[HARBOR_DATA] == data
    ensures h.faults == old(h.faults) && PartsPlain(h.node.files, parts) ==> ok && Plain(data)
  {
    hide PartTaken, Lookup, CanPut, PartPlain;
    data := EMPTY_DIR;
    assert Plain(data);
    var rest := parts;
    EmptyHalf(live, snapshot, h.node.files, parts);
    while rest != {}
      invariant rest <= parts && HalfFilled(live, snapshot, h.node.files, parts, rest, data)
      invariant h.partial.Some? && Others({HARBOR_DATA}, old(h.partial.value), h.partial.value)
      invariant h.faults >= old(h.faults)
      invariant data != EMPTY_DIR ==> HARBOR_DATA in h.partial.value && h.partial.value[HARBOR_DATA] == data
      invariant PartsPlain(h.node.files, parts) ==> Plain(data)
      decreases rest
    {
      var s :| s in rest;
      var present, copied;
      ok, present, copied := CopyPart(h, live, snapshot, s);
      if !ok {
        h.Spoil(HARBOR_DATA);
        return;
      }
      if present {
        FillOne(live, snapshot, h.node.files, parts, rest, data, s, copied);
        if PartsPlain(h.node.files, parts) {
          PutPlain(data, s, copied);
        }
        data := PutAt(data, s, copied);
        h.Place(HARBOR_DATA, data);
      }
      rest := rest - {s};
    }
    ok := true;
  }

  lemma EmptyHalf(live: bool, snapshot: bool, files: Tree, parts: set<Path>)
    requires [] !in parts
    ensures HalfFilled(live, snapshot, files, parts, parts, EMPTY_DIR)
  {
  }

  /** One sub-path, from the snapshot or file by file. */
  method CopyPart(h: Host, live: bool, snapshot: bool, s: Path) returns (ok: bool, present: bool, copied: Tree)
    requires live ==> !snapshot
    modifies h`faults
    ensures h.faults >= old(h.faults)
    ensures ok ==> PartTaken(live, snapshot, h.node.files, s, if present then Some(copied) else None)
    ensures h.faults == old(h.faults) && PartPlain(h.node.files, s) ==> ok
    ensures ok && present && PartPlain(h.node.files, s) ==> Plain(copied)
  {
    var src := Lookup(h.node.files, HARBOR_FILES + s);
    ok, present, copied := true, false, EMPTY_DIR;
    if src.Some? && (src.value.Dir? || snapshot) {
      present := true;
      if src.value.Dir? && snapshot {
        ok := h.Attempt();
        copied := src.value;
      } else {
        ok, copied := h.CopyTree(src.value, false);
      }
      if ok && PartPlain(h.node.files, s) {
        CapturedPlain(snapshot, src.value);
        MaskedPlain(src.value);
      }
      // While Harbor writes, a file copy may mix what is there at different times.
      var mixed: Tree := *;
      if live && mixed.Dir? && Plain(mixed) {
        copied := mixed;
      }
    }
  }

  /** Harbor's database and files. In read-only mode both show one moment. */
  method HarborFiles(h: Host, job: Job) returns (ok: bool, snap: bool, ghost dump: NodeState)
    requires h.partial.Some? && HARBOR_DATA !in h.partial.value && GoodLayout(job.cfg)
    modifies h`partial, h`faults, h`node, h`trail
    ensures h.partial.Some? && Others({HARBOR_DUMP, HARBOR_DATA}, old(h.partial.value), h.partial.value)
    ensures h.faults >= old(h.faults)
    ensures ServicesOnly(job.cfg, old(h.node), h.node) && old(h.trail) <= h.trail
    ensures ok ==> HarborCaptured(job.tools, h.harborReadOnly, snap, dump, h.node, h.partial.value)
    ensures ok ==> HarborPassed(old(h.trail), h.trail, h.harborReadOnly, snap, dump, h.node)
    ensures ok && job.cfg.requireBtrfs ==> snap
    ensures h.faults == old(h.faults) && HarborReady(job.cfg, h.btrfs, old(h.node)) ==>
      ok && Plain(h.partial.value[HARBOR_DATA])
  {
    hide PartTaken, PartsTaken, Lookup, CanPut, IsDirAt, PartsPlain, Plain, ServicesOnly, SameHarbor, HarborReady, HarborCaptured;
    hide HARBOR_PARTS, Passed, DumpIn;
    snap := false;
    ok, dump := DumpHarbor(h, job);
    ghost var dumped := h.partial.value;
    ReadyNow(job.cfg, h.btrfs, h.node);
    if !ok || !IsDirAt(h.node.files, HARBOR_FILES) || !IsDirAt(h.node.files, HARBOR_FILES + REGISTRY) {
      return false, snap, dump;
    }
    var none;
    snap, ok, none := h.CopySnapshot(EMPTY_DIR);
    if !ok || (!snap && job.cfg.requireBtrfs) {
      return false, snap, dump;
    }
    HarborPartsApart();
    var data;
    ok, data := CopyParts(h, !snap && !h.harborReadOnly, snap, HARBOR_PARTS);
    if ok {
      RegistryTaken(!snap && !h.harborReadOnly, snap, h.node.files, data);
      BothTaken(job, snap, h.harborReadOnly, dump, h.node, dumped, h.partial.value, data);
    }
    ok := ok && IsDirAt(data, REGISTRY);
  }

  /** Harbor's dump, and what happens until its files are looked at. */
  method DumpHarbor(h: Host, job: Job) returns (ok: bool, ghost dump: NodeState)
    requires h.partial.Some? && GoodLayout(job.cfg)
    modifies h`partial, h`faults, h`node, h`trail
    ensures h.partial.Some? && Others({HARBOR_DUMP}, old(h.partial.value), h.partial.value)
    ensures h.faults >= old(h.faults)
    ensures ServicesOnly(job.cfg, old(h.node), h.node) && old(h.trail) <= h.trail
    ensures ok ==> DumpIn(job.tools, dump, h.partial.value, HARBOR_DUMP, HARBOR_DB)
    ensures HarborPassed(old(h.trail), h.trail, h.harborReadOnly, true, dump, h.node)
    ensures HarborReady(job.cfg, h.btrfs, old(h.node)) ==> HarborReady(job.cfg, h.btrfs, h.node)
    ensures h.faults == old(h.faults) && HarborReady(job.cfg, h.btrfs, old(h.node)) ==> ok
  {
    hide ServicesOnly, SameGitea, SameHarbor, HarborReady, Passed;
    h.Drift(job.cfg);
    ghost var seen, first := h.trail, h.node;
    JustPassed(old(h.trail), seen, Moment(first, h.running, h.harborReadOnly));
    StaysReady(job.cfg, h.btrfs, old(h.node), first);
    ReadyNow(job.cfg, h.btrfs, first);
    ok := h.DumpPostgres(job.tools, HARBOR_DUMP, HARBOR_DB);
    h.Drift(job.cfg);
    ServicesOnlyOn(job.cfg, old(h.node), first, h.node);
    StaysReady(job.cfg, h.btrfs, first, h.node);
    JustPassed(seen, h.trail, Moment(h.node, h.running, h.harborReadOnly));
    PassedWithin(old(h.trail), seen, h.trail, h.trail, h.node, false, h.harborReadOnly);
    dump := first;
    if h.harborReadOnly {
      SameDump(job.tools, first, h.node, h.partial.value);
      dump := h.node;
    }
    PassedWithin(old(h.trail), old(h.trail), seen, h.trail, first, false, h.harborReadOnly);
    PassedAnyway(old(h.trail), old(h.trail), h.trail, dump, false, h.harborReadOnly);
  }

  /** What was dumped from a read-only Harbor is also what it holds later. */
  lemma SameDump(tools: Tools, a: NodeState, b: NodeState, kids: map<Name, Tree>)
    requires SameHarbor(a, b)
    ensures DumpIn(tools, a, kids, HARBOR_DUMP, HARBOR_DB) ==> DumpIn(tools, b, kids, HARBOR_DUMP, HARBOR_DB)
  {
    hide Lookup;
  }

  /** Dump and files together. */
  lemma BothTaken(job: Job, snap: bool, still: bool, dump: NodeState, now: NodeState, dumped: map<Name, Tree>,
                  kids: map<Name, Tree>, data: Tree)
    requires DumpIn(job.tools, dump, dumped, HARBOR_DUMP, HARBOR_DB) && Others({HARBOR_DATA}, dumped, kids)
    requires HARBOR_DATA in kids && kids[HARBOR_DATA] == data && data.Dir?
    requires IsDirAt(now.files, HARBOR_FILES + REGISTRY)
    requires PartsTaken(!snap && !still, snap, now.files, HARBOR_PARTS, data)
    ensures HarborCaptured(job.tools, still, snap, dump, now, kids)
  {
    hide PartCaptured, Lookup;
  }

  /** Harbor's files and database can be captured. */
  predicate HarborReady(cfg: Config, btrfs: bool, node: NodeState)
  {
    && HARBOR_DB in node.dbs && IsDirAt(node.files, HARBOR_FILES) && IsDirAt(node.files, HARBOR_FILES + REGISTRY)
    && (cfg.requireBtrfs ==> btrfs) && PartsPlain(node.files, HARBOR_PARTS)
  }

  lemma StaysReady(cfg: Config, btrfs: bool, a: NodeState, b: NodeState)
    requires ServicesOnly(cfg, a, b)
    ensures HarborReady(cfg, btrfs, a) ==> HarborReady(cfg, btrfs, b)
  {
    hide Lookup, IsDirAt, PlainDirAt, PartsPlain;
  }

  lemma ReadyNow(cfg: Config, btrfs: bool, node: NodeState)
    ensures HarborReady(cfg, btrfs, node) ==>
      && HARBOR_DB in node.dbs && IsDirAt(node.files, HARBOR_FILES) && IsDirAt(node.files, HARBOR_FILES + REGISTRY)
      && (cfg.requireBtrfs ==> btrfs) && PartsPlain(node.files, HARBOR_PARTS)
  {
    hide Lookup, PartsPlain;
  }

  lemma RegistryTaken(live: bool, snapshot: bool, files: Tree, data: Tree)
    requires PartsTaken(live, snapshot, files, HARBOR_PARTS, data)
    requires IsDirAt(files, HARBOR_FILES + REGISTRY)
    ensures data != EMPTY_DIR && IsDirAt(data, REGISTRY)
  {
    HarborPartsApart();
    assert PartTaken(live, snapshot, files, REGISTRY, Lookup(data, REGISTRY));
  }

  /** Harbor's configuration call; when it fails the setting may have changed or not. */
  method SetHarborReadOnly(h: Host, enabled: bool) returns (ok: bool)
    modifies h`harborReadOnly, h`faults
    ensures h.faults == old(h.faults) + if ok then 0 else 1
    ensures ok ==> h.harborReadOnly == enabled
  {
    ok := h.Attempt();
    var reached := *;
    if ok || reached {
      h.harborReadOnly := enabled;
    }
  }

  /** Harbor cannot write during its capture: it is switched to read-only, or was. */
  predicate HarborStill(cfg: Config, readOnly: bool)
  {
    cfg.harborPassword || readOnly
  }

  /** `backupHarbor`: when Harbor was put into read-only mode a reset follows on
      every path, so it is left read-only only after a failed step. Because of that
      mode the dump and the files show one moment the node went through. */
  method BackupHarbor(h: Host, job: Job) returns (ok: bool, ghost snap: bool, ghost dump: NodeState, ghost cut: NodeState)
    requires h.partial.Some? && HARBOR_DATA !in h.partial.value && GoodLayout(job.cfg)
    modifies h`partial, h`faults, h`harborReadOnly, h`node, h`trail
    ensures h.partial.Some? && Others({HARBOR_DUMP, HARBOR_DATA}, old(h.partial.value), h.partial.value)
    ensures h.faults >= old(h.faults)
    ensures ServicesOnly(job.cfg, old(h.node), h.node) && old(h.trail) <= h.trail
    ensures ok ==> HarborCaptured(job.tools, HarborStill(job.cfg, old(h.harborReadOnly)), snap, dump, cut, h.partial.value)
    ensures ok ==> HarborPassed(old(h.trail), h.trail, HarborStill(job.cfg, old(h.harborReadOnly)), snap, dump, cut)
    ensures ok && job.cfg.requireBtrfs ==> snap
    ensures ok && job.cfg.harborPassword ==> !h.harborReadOnly
    ensures h.faults == old(h.faults) && h.harborReadOnly ==> old(h.harborReadOnly)
    ensures h.faults == old(h.faults) && HarborReachable(job.cfg, h.running) && HarborReady(job.cfg, h.btrfs, old(h.node)) ==>
      ok && Plain(h.partial.value[HARBOR_DATA])
  {
    hide HarborCaptured, HarborPassed, HarborReady, Plain, ServicesOnly;
    ServicesOnlyNot(job.cfg, h.node);
    snap, dump, cut := false, h.node, h.node;
    var present := h.ContainerExists(HARBOR_DB);
    if !present || (job.cfg.requireReadOnly && !job.cfg.harborPassword) {
      return false, snap, dump, cut;
    }
    if job.cfg.harborPassword {
      ok := SetHarborReadOnly(h, true);
      if !ok {
        return;
      }
    }
    var used;
    ok, used, dump := HarborFiles(h, job);
    snap, cut := used, h.node;
    if job.cfg.harborPassword {
      var reset := SetHarborReadOnly(h, false);
      ok := ok && reset;
    }
  }

  predicate HarborReachable(cfg: Config, running: set<string>)
  {
    HARBOR_DB in running && (cfg.requireReadOnly ==> cfg.harborPassword)
  }

  /** What no service owns stays as it is. */
  lemma BesideServices(cfg: Config, a: NodeState, b: NodeState, q: Path, s: Path)
    requires GoodLayout(cfg) && ServicesOnly(cfg, a, b)
    requires q == STACKS || q == ENV
    ensures Lookup(b.files, q + s) == Lookup(a.files, q + s)
  {
    hide Lookup, SameShape;
    assert GITEA_FILES[0] == "data" && HARBOR_FILES[0] == "data" && q[0] != "data";
    assert Apart(GITEA_FILES, q) && Apart(HARBOR_FILES, q);
    BelowApart(cfg.giteaStack, q, s);
    BelowApart(GITEA_FILES, q, s);
    BelowApart(HARBOR_FILES, q, s);
  }

  // ------------------------------------------------------------------ OpenBao

  /** Removing the scratch file; a file that is not there is no error. */
  method RemoveScratch(h: Host) returns (ok: bool)
    modifies h`scratch, h`faults, h`stuck
    ensures h.faults == old(h.faults) + if ok then 0 else 1
    ensures h.stuck == old(h.stuck) + if ok then 0 else 1
    ensures h.scratch == if ok then None else old(h.scratch)
  {
    ok := h.Attempt();
    if ok {
      h.scratch := None;
    } else {
      h.stuck := h.stuck + 1;
    }
  }

  /** The snapshot program never writes an empty file. */
  ghost predicate NeverEmpty(tools: Tools)
  {
    forall v :: |tools.save(v)| > 0
  }

  /** OpenBao's step: the store as it was at one moment. `deferred` tells whether the
      removal of the scratch file has been registered to run at the end. */
  method BackupOpenBao(h: Host, job: Job) returns (ok: bool, deferred: bool, ghost cut: NodeState)
    requires h.partial.Some? && GoodLayout(job.cfg)
    modifies h`partial, h`faults, h`scratch, h`stuck, h`node, h`trail
    ensures h.partial.Some? && Others({OPENBAO_SNAP}, old(h.partial.value), h.partial.value)
    ensures h.faults >= old(h.faults) && h.stuck >= old(h.stuck)
    ensures ServicesOnly(job.cfg, old(h.node), h.node) && old(h.trail) <= h.trail
    ensures !deferred ==> h.scratch == old(h.scratch) && !ok
    ensures ok ==> h.scratch == None && VaultCaptured(job.tools, cut, h.partial.value)
    ensures ok ==> Passed(old(h.trail), h.trail, cut, false, false)
    ensures h.faults == old(h.faults) && job.cfg.baoToken && NeverEmpty(job.tools) ==> ok
  {
    hide ServicesOnly, Passed;
    cut := h.node;
    ServicesOnlyNot(job.cfg, h.node);
    if !job.cfg.baoToken {
      return false, false, cut;
    }
    deferred := false;
    ok := RemoveScratch(h);
    if !ok {
      return;
    }
    deferred := true;
    h.Drift(job.cfg);
    cut := h.node;
    JustPassed(old(h.trail), h.trail, Moment(h.node, h.running, h.harborReadOnly));
    PassedAnyway(old(h.trail), old(h.trail), h.trail, cut, false, h.harborReadOnly);
    ok := h.Attempt();
    if !ok {
      h.scratch := *;
      return;
    }
    var snapshot := job.tools.save(h.node.vault);
    h.scratch := Some(snapshot);
    if |snapshot| == 0 {
      return false, true, cut;
    }
    ok := h.Attempt();
    if !ok {
      return;
    }
    ok := h.Attempt();
    if !ok {
      h.Spoil(OPENBAO_SNAP);
      return;
    }
    h.Place(OPENBAO_SNAP, File(snapshot, MODE_0600));
    ok := RemoveScratch(h);
  }

  // ------------------------------------------------------------------- images

  function Digits(n: nat): (s: string)
    ensures s != "" && DecimalValue(s) == n
    decreases n
  {
    var last := [('0' as int + n % 10) as char];
    if n < 10 then last
    else
      var rest := Digits(n / 10);
      assert (rest + last)[..|rest|] == rest;
      rest + last
  }

  function DecimalValue(s: string): int
  {
    if s == "" then 0 else DecimalValue(s[..|s| - 1]) * 10 + (s[|s| - 1] as int - '0' as int)
  }

  /** `fmt.Sprintf("%03d", n)` */
  function Padded(n: nat): string
  {
    if n < 10 then "00" + Digits(n) else if n < 100 then "0" + Digits(n) else Digits(n)
  }

  function TagName(id: string, n: nat): string
  {
    "admin-node-backup.local/" + id + ":image-" + Padded(n)
  }

  lemma {:induction false} LeadingZero(s: string)
    ensures DecimalValue("0" + s) == DecimalValue(s)
  {
    if s == "" {
      assert "0" + s == "0" && "0"[..0] == "";
    } else {
      LeadingZero(s[..|s| - 1]);
      assert ("0" + s)[..|s|] == "0" + s[..|s| - 1];
    }
  }

  /** Temporary tags of one run are all different. */
  lemma TagsDiffer(id: string, m: nat, n: nat)
    requires TagName(id, m) == TagName(id, n)
    ensures m == n
  {
    var prefix := "admin-node-backup.local/" + id + ":image-";
    assert TagName(id, m)[|prefix|..] == Padded(m) && TagName(id, n)[|prefix|..] == Padded(n);
    PaddedValue(m);
    PaddedValue(n);
  }

  lemma PaddedValue(n: nat)
    ensures DecimalValue(Padded(n)) == n
  {
    LeadingZero(Digits(n));
    LeadingZero("0" + Digits(n));
    assert "0" + ("0" + Digits(n)) == "00" + Digits(n);
  }

  predicate ArchiveOf(id: string, images: seq<string>, archives: seq<ImageArchive>)
  {
    |archives| == |images| &&
    forall i :: 0 <= i < |archives| ==> archives[i].source == images[i] && archives[i].tag == TagName(id, i + 1)
  }

  predicate AllComplete(archives: seq<ImageArchive>)
  {
    forall i :: 0 <= i < |archives| ==> CompleteArchive(archives[i])
  }

  lemma ArchivesDistinct(id: string, images: seq<string>, archives: seq<ImageArchive>)
    requires StrictlySorted(images) && ArchiveOf(id, images, archives)
    ensures DistinctSources(archives) && DistinctTags(archives)
  {
    hide TagName;
    SortedIsDistinct(images);
    forall i, j | 0 <= i < j < |archives| ensures archives[i].tag != archives[j].tag {
      if archives[i].tag == archives[j].tag {
        TagsDiffer(id, i + 1, j + 1);
      }
    }
  }

  function TagPrefix(id: string): string { "admin-node-backup.local/" + id + ":image-" }

  lemma {:induction false} DigitsAreNumerals(n: nat)
    ensures Numerals(Digits(n))
    ensures |Digits(n)| == if n < 10 then 1 else |Digits(n / 10)| + 1
    decreases n
  {
    if n >= 10 {
      DigitsAreNumerals(n / 10);
    }
  }

  lemma PaddedAreNumerals(n: nat)
    ensures Numerals(Padded(n)) && (n <= 999 ==> |Padded(n)| == 3)
  {
    DigitsAreNumerals(n);
    DigitsAreNumerals(n / 10);
    DigitsAreNumerals(n / 10 / 10);
  }

  lemma TagMinted(id: string, n: nat)
    ensures Minted(TagPrefix(id), TagName(id, n)) && TagName(id, n) == TagPrefix(id) + Padded(n)
  {
    PaddedAreNumerals(n);
    hide Padded;
    assert TagName(id, n)[|TagPrefix(id)|..] == Padded(n);
  }

  lemma RunTagsMinted(id: string, images: seq<string>, archives: seq<ImageArchive>)
    requires ArchiveOf(id, images, archives)
    ensures GoodPrefix(TagPrefix(id)) && AllMinted(TagPrefix(id), archives)
    ensures |archives| <= 999 ==> forall i, j :: 0 <= i < |archives| && 0 <= j < |archives| ==> |archives[i].tag| == |archives[j].tag|
  {
    hide TagName, Padded;
    assert TagPrefix(id)[|TagPrefix(id)| - 1] == '-';
    forall i | 0 <= i < |archives|
      ensures Minted(TagPrefix(id), archives[i].tag)
      ensures |archives| <= 999 ==> |archives[i].tag| == |TagPrefix(id)| + 3
    {
      TagMinted(id, i + 1);
      PaddedAreNumerals(i + 1);
    }
  }

  /** The archives a run makes can be written into every definition at one stroke if
      and only if they are disentangled, whichever images there are, as long as none
      is named after this very run. */
  lemma RunRewritableExactly(id: string, images: seq<string>, archives: seq<ImageArchive>)
    requires StrictlySorted(images) && ArchiveOf(id, images, archives) && NonEmptySources(archives)
    requires Fresh(TagPrefix(id), archives)
    ensures AlwaysSubstituted(archives) <==> Disentangled(archives)
    ensures |archives| <= 999 ==> (Disentangled(archives) <==> InOrder(archives))
  {
    hide TagName, Rewritten, RewritesSimultaneously, Disentangled, InOrder, Fresh, Occurs, AlwaysSubstituted, AllMinted, GoodPrefix;
    ArchivesDistinct(id, images, archives);
    RunTagsMinted(id, images, archives);
    RewritableExactly(TagPrefix(id), archives);
    SubstitutedExactly(archives);
    if |archives| <= 999 {
      SameLengthInOrder(archives);
    }
  }

  /** Every file below `t` that is made of delimited image references shows each of
      them replaced by its own tag, at one stroke. */
  ghost predicate Substituted(t: Tree, out: Tree, archives: seq<ImageArchive>)
  {
    match t
    case File(data, perm) => out.File? && out.perm == perm && TextSubstituted(data, out.data, archives)
    case Dir(kids, perm) =>
      out.Dir? && out.perm == perm && out.kids.Keys == kids.Keys &&
      forall n :: n in kids ==> Substituted(kids[n], out.kids[n], archives)
    case Special => out.Special?
  }

  ghost predicate TextSubstituted(data: string, out: string, archives: seq<ImageArchive>)
  {
    forall fields, seps :: WellDelimited(fields, seps, archives) && Render(fields, seps) == data ==>
      out == Render(RenamedAll(fields, archives), seps)
  }

  /** Whatever the definitions say. */
  ghost predicate AlwaysSubstituted(archives: seq<ImageArchive>)
  {
    forall t :: Substituted(t, RewrittenTree(t, archives), archives)
  }

  lemma {:induction false} Substitutes(t: Tree, archives: seq<ImageArchive>)
    requires RewritesSimultaneously(archives)
    ensures Substituted(t, RewrittenTree(t, archives), archives)
  {
    match t
    case File(_, _) =>
    case Special =>
    case Dir(kids, _) =>
      forall n | n in kids ensures Substituted(kids[n], RewrittenTree(kids[n], archives), archives) {
        Substitutes(kids[n], archives);
      }
  }

  lemma SubstitutedExactly(archives: seq<ImageArchive>)
    ensures AlwaysSubstituted(archives) <==> RewritesSimultaneously(archives)
  {
    hide Rewritten, Render, RenamedAll;
    if RewritesSimultaneously(archives) {
      forall t ensures Substituted(t, RewrittenTree(t, archives), archives) {
        Substitutes(t, archives);
      }
    }
    if AlwaysSubstituted(archives) {
      forall fields: seq<string>, seps: seq<char> | WellDelimited(fields, seps, archives)
        ensures Rewritten(Render(fields, seps), archives) == Render(RenamedAll(fields, archives), seps)
      {
        var t := File(Render(fields, seps), MODE_0600);
        assert Substituted(t, RewrittenTree(t, archives), archives);
      }
      assert RewritesSimultaneously(archives);
    }
  }

  lemma TagNotBlank(id: string, n: nat)
    ensures !Blank(TagName(id, n))
  {
    assert TagName(id, n)[0] == 'a';
  }

  /** The images `docker compose config` names for one active stack. */
  function ImagesOf(tools: Tools, codec: Codec, files: Tree, name: string): set<string>
  {
    if ValidEntry(name) && Lookup(files, STACKS + [name]).Some? then
      set s | s in tools.images(Lookup(files, STACKS + [name]).value) && !Blank(s) && codec.text(s)
    else {}
  }

  /** Those of all active stacks. */
  predicate ImageNamed(tools: Tools, codec: Codec, files: Tree, active: seq<string>, image: string)
  {
    exists i :: 0 <= i < |active| && image in ImagesOf(tools, codec, files, active[i])
  }

  /** `DetectImagesForStacks`: without repetition and sorted. Where the command fails, the
      compose file is read line by line, which may give anything. */
  method DetectImages(h: Host, job: Job, ghost start: NodeState) returns (images: seq<string>)
    requires GoodLayout(job.cfg) && ServicesOnly(job.cfg, start, h.node)
    modifies h`faults
    ensures h.faults >= old(h.faults)
    ensures StrictlySorted(images)
    ensures forall s :: s in images ==> job.codec.text(s)
    ensures h.faults == old(h.faults) ==>
      forall s :: s in images <==> ImageNamed(job.tools, job.codec, start.files, job.active, s)
  {
    hide ServicesOnly, GoodLayout, ImagesOf;
    var found: set<string> := {};
    var k := 0;
    while k < |job.active|
      invariant 0 <= k <= |job.active|
      invariant h.faults >= old(h.faults)
      invariant forall s :: s in found ==> job.codec.text(s)
      invariant h.faults == old(h.faults) ==>
        forall s :: s in found <==> ImageNamed(job.tools, job.codec, start.files, job.active[..k], s)
    {
      OneMoreStack(job.tools, job.codec, start.files, job.active, k);
      SameImages(job, start, h.node, job.active[k]);
      var listed := h.Attempt();
      if listed {
        SomeImages(job.tools, job.codec, h.node.files, job.active[k]);
        found := found + ImagesOf(job.tools, job.codec, h.node.files, job.active[k]);
      } else {
        var parsed: set<string> := *;
        found := found + (set s | s in parsed && job.codec.text(s));
      }
      k := k + 1;
    }
    assert job.active[..|job.active|] == job.active;
    images := SortedNames(found);
  }

  lemma OneMoreStack(tools: Tools, codec: Codec, files: Tree, active: seq<string>, k: nat)
    requires k < |active|
    ensures forall s :: ImageNamed(tools, codec, files, active[..k + 1], s) <==>
      ImageNamed(tools, codec, files, active[..k], s) || s in ImagesOf(tools, codec, files, active[k])
  {
    hide ImagesOf;
    var more := active[..k + 1];
    assert more[..k] == active[..k] && more[k] == active[k];
    forall s ensures ImageNamed(tools, codec, files, more, s) <==>
      ImageNamed(tools, codec, files, active[..k], s) || s in ImagesOf(tools, codec, files, active[k])
    {
      if ImageNamed(tools, codec, files, active[..k], s) {
        var i :| 0 <= i < k && s in ImagesOf(tools, codec, files, active[..k][i]);
        assert more[i] == active[..k][i];
      }
      if s in ImagesOf(tools, codec, files, active[k]) {
        assert s in ImagesOf(tools, codec, files, more[k]);
      }
      if ImageNamed(tools, codec, files, more, s) && s !in ImagesOf(tools, codec, files, active[k]) {
        var i :| 0 <= i < |more| && s in ImagesOf(tools, codec, files, more[i]);
        assert more[i] == active[..k][i];
      }
    }
  }

  /** Definitions do not change while services write. */
  lemma SameImages(job: Job, a: NodeState, b: NodeState, name: string)
    requires GoodLayout(job.cfg) && ServicesOnly(job.cfg, a, b)
    ensures ImagesOf(job.tools, job.codec, b.files, name) == ImagesOf(job.tools, job.codec, a.files, name)
  {
    hide ServicesOnly, GoodLayout, Lookup;
    if ValidEntry(name) {
      var n: Name := name;
      BesideServices(job.cfg, a, b, STACKS, [n]);
    }
  }

  lemma SomeImages(tools: Tools, codec: Codec, files: Tree, name: string)
    ensures forall s :: s in ImagesOf(tools, codec, files, name) ==> codec.text(s) && !Blank(s)
  {
    hide Lookup, Blank;
  }

  /** What a command answers, nothing if that is no text. */
  predicate TextOrNothing(codec: Codec, s: string) { s == "" || codec.text(s) }

  predicate IDsAreText(codec: Codec, archives: seq<ImageArchive>)
  {
    forall i :: 0 <= i < |archives| ==> TextOrNothing(codec, archives[i].imageID)
  }

  /** One image: inspect, then tag. An inspection that succeeds on a blank name or
      answers with a blank id counts as a fault. */
  method TagImage(h: Host, codec: Codec, image: string, tag: string) returns (ok: bool, imageID: string)
    modifies h`faults, h`tags
    ensures h.faults >= old(h.faults)
    ensures TextOrNothing(codec, imageID)
    ensures h.tags == old(h.tags) + if ok then {tag} else {}
    ensures ok && h.faults == old(h.faults) ==> !Blank(image) && !Blank(imageID)
    ensures h.faults == old(h.faults) ==> ok
  {
    ok := h.Attempt();
    var answer: string := *;
    imageID := if codec.text(answer) then answer else "";
    if !ok {
      return;
    }
    if Blank(image) || Blank(imageID) {
      h.faults := h.faults + 1;
    }
    ok := h.Attempt();
    if ok {
      h.tags := h.tags + {tag};
    }
  }

  /** Tags every image, then saves all of them in one archive. `tags` lists the
      removals registered to run at the end, in order of registration. */
  method ArchiveImages(h: Host, job: Job, images: seq<string>)
    returns (ok: bool, archives: seq<ImageArchive>, tags: seq<string>)
    requires h.partial.Some?
    modifies h`partial, h`faults, h`tags
    ensures h.partial.Some? && Others({OFFLINE_TAR}, old(h.partial.value), h.partial.value)
    ensures h.faults >= old(h.faults)
    ensures h.tags == old(h.tags) + (set t | t in tags)
    ensures ok ==> ArchiveOf(job.id, images, archives)
    ensures IDsAreText(job.codec, archives)
    ensures ok ==> OFFLINE_TAR in h.partial.value && h.partial.value[OFFLINE_TAR].File?
    ensures ok && h.faults == old(h.faults) ==> AllComplete(archives)
    ensures h.faults == old(h.faults) ==> ok
  {
    hide TagName, Blank, TextOrNothing;
    archives, tags := [], [];
    var k := 0;
    while k < |images|
      invariant 0 <= k <= |images|
      invariant h.faults >= old(h.faults) && h.partial == old(h.partial)
      invariant h.tags == old(h.tags) + (set t | t in tags)
      invariant ArchiveOf(job.id, images[..k], archives)
      invariant IDsAreText(job.codec, archives)
      invariant h.faults == old(h.faults) ==> AllComplete(archives)
    {
      var tag := TagName(job.id, k + 1);
      TagNotBlank(job.id, k + 1);
      var imageID;
      ok, imageID := TagImage(h, job.codec, images[k], tag);
      if !ok {
        return;
      }
      tags := tags + [tag];
      archives := archives + [ImageArchive(images[k], tag, imageID)];
      k := k + 1;
    }
    assert images[..|images|] == images;
    ok := h.Attempt();
    if !ok {
      h.Spoil(OFFLINE_TAR);
      return;
    }
    var saved: Data := *;
    h.Place(OFFLINE_TAR, File(saved, MODE_0600));
  }

  /** The deferred removals, last registered first. A failing one is dropped. */
  method RemoveTags(h: Host, tags: seq<string>)
    modifies h`faults, h`stuck, h`tags
    ensures h.faults >= old(h.faults) && h.stuck >= old(h.stuck)
    ensures h.stuck == old(h.stuck) ==> h.tags == old(h.tags) - (set t | t in tags)
    ensures h.tags <= old(h.tags)
  {
    var k := |tags|;
    while k > 0
      invariant 0 <= k <= |tags|
      invariant h.faults >= old(h.faults) && h.stuck >= old(h.stuck)
      invariant h.stuck == old(h.stuck) ==> h.tags == old(h.tags) - (set t | t in tags[k..])
      invariant h.tags <= old(h.tags)
    {
      k := k - 1;
      assert tags[k..] == [tags[k]] + tags[k + 1..];
      var ok := h.Attempt();
      if ok {
        h.tags := h.tags - {tags[k]};
      } else {
        h.stuck := h.stuck + 1;
      }
    }
    assert tags[0..] == tags;
  }

  // -------------------------------------------------------------- definitions

  /** Every active definition is a directory that can be copied. */
  predicate DefinitionsReady(files: Tree, active: seq<string>)
  {
    forall i :: 0 <= i < |active| && ValidEntry(active[i]) ==> PlainDirAt(files, STACKS + [active[i]])
  }

  lemma DefinitionReady(files: Tree, active: seq<string>, k: nat)
    requires DefinitionsReady(files, active) && k < |active| && ValidEntry(active[k])
    ensures var src := Lookup(files, STACKS + [active[k]]); src.Some? && src.value.Dir? && Plain(src.value)
  {
    assert PlainDirAt(files, STACKS + [active[k]]);
  }

  /** `copyActiveStackDefinitions` */
  method CopyDefinitions(h: Host, job: Job, ghost start: NodeState) returns (ok: bool)
    requires h.partial.Some? && GoodLayout(job.cfg) && ServicesOnly(job.cfg, start, h.node)
    requires StrictlySorted(job.active) && forall i :: 0 <= i < |job.active| ==> ValidEntry(job.active[i])
    modifies h`partial, h`faults
    ensures h.partial.Some? && Others({DEFINITIONS}, old(h.partial.value), h.partial.value)
    ensures h.faults >= old(h.faults)
    ensures ok ==> DefinitionsCaptured(job.active, false, [], start, h.partial.value)
    ensures ok ==> Plain(h.partial.value[DEFINITIONS])
    ensures h.faults == old(h.faults) && DefinitionsReady(start.files, job.active) ==> ok
  {
    hide Lookup, PlainDirAt, Plain, DefinitionsReady, DefinitionKept, ServicesOnly, GoodLayout;
    ok := h.Attempt();
    if !ok {
      return;
    }
    SortedIsDistinct(job.active);
    var defs := EMPTY_DIR;
    h.Place(DEFINITIONS, defs);
    EmptyPlain();
    var k := 0;
    while k < |job.active|
      invariant 0 <= k <= |job.active| && defs.Dir?
      invariant h.partial.Some? && Others({DEFINITIONS}, old(h.partial.value), h.partial.value)
      invariant DEFINITIONS in h.partial.value && h.partial.value[DEFINITIONS] == defs
      invariant h.faults >= old(h.faults)
      invariant forall i :: 0 <= i < k ==> DefinitionKept(start.files, job.active[i], false, [], defs)
      invariant Plain(defs)
    {
      var copied;
      ok, copied := CopyDefinition(h, job, k, start);
      if !ok {
        h.Spoil(DEFINITIONS);
        return;
      }
      OneMoreDefinition(start.files, job.active, k, defs, copied);
      OneMorePlain(defs, job.active[k], copied);
      defs := Dir(defs.kids[job.active[k] := copied], defs.perm);
      h.Place(DEFINITIONS, defs);
      k := k + 1;
    }
    ok := true;
  }

  lemma EmptyPlain()
    ensures Plain(EMPTY_DIR)
  {
  }

  lemma OneMorePlain(t: Tree, n: Name, kid: Tree)
    requires t.Dir? && Plain(t) && Plain(kid)
    ensures Plain(Dir(t.kids[n := kid], t.perm))
  {
  }

  lemma OneMoreDefinition(files: Tree, active: seq<string>, k: nat, defs: Tree, copied: Tree)
    requires k < |active| && ValidEntry(active[k]) && defs.Dir?
    requires forall i, j :: 0 <= i < j < |active| ==> active[i] != active[j]
    requires forall i :: 0 <= i < k ==> DefinitionKept(files, active[i], false, [], defs)
    requires IsDirAt(files, STACKS + [active[k]]) && copied == Lookup(files, STACKS + [active[k]]).value
    ensures forall i :: 0 <= i <= k ==>
      DefinitionKept(files, active[i], false, [], Dir(defs.kids[active[k] := copied], defs.perm))
  {
    var next := Dir(defs.kids[active[k] := copied], defs.perm);
    forall i | 0 <= i < k ensures Lookup(next, [active[i]]) == Lookup(defs, [active[i]]) {
      assert active[i] != active[k];
      OneLevel(next, active[i]);
      OneLevel(defs, active[i]);
    }
    OneLevel(next, active[k]);
  }

  lemma OneLevel(t: Tree, n: Name)
    requires t.Dir?
    ensures Lookup(t, [n]) == if n in t.kids then Some(t.kids[n]) else None
  {
    assert [n][1..] == [];
  }

  /** One definition. That it is no directory (any more) is an error of its own. */
  method CopyDefinition(h: Host, job: Job, k: nat, ghost start: NodeState) returns (ok: bool, copied: Tree)
    requires GoodLayout(job.cfg) && ServicesOnly(job.cfg, start, h.node) && k < |job.active| && ValidEntry(job.active[k])
    modifies h`faults
    ensures h.faults >= old(h.faults)
    ensures ok ==> IsDirAt(start.files, STACKS + [job.active[k]]) && Plain(copied)
    ensures ok ==> copied == Lookup(start.files, STACKS + [job.active[k]]).value
    ensures h.faults == old(h.faults) && DefinitionsReady(start.files, job.active) ==> ok
  {
    hide Lookup, ServicesOnly, GoodLayout, DefinitionsReady, Plain;
    var name: Name := job.active[k];
    BesideServices(job.cfg, start, h.node, STACKS, [name]);
    if DefinitionsReady(start.files, job.active) {
      DefinitionReady(start.files, job.active, k);
    }
    var src := Lookup(h.node.files, STACKS + [name]);
    if src.None? || !src.value.Dir? {
      return false, EMPTY_DIR;
    }
    ok, copied := h.CopyTree(src.value, true);
  }

  /** `rewriteStackImageReferences`, file by file; a failing write leaves debris. */
  method RewriteTree(h: Host, t: Tree, archives: seq<ImageArchive>) returns (ok: bool, out: Tree)
    modifies h`faults
    ensures h.faults >= old(h.faults)
    ensures ok ==> out == RewrittenTree(t, archives)
    ensures t.Dir? ==> out.Dir?
    ensures h.faults == old(h.faults) && Plain(t) ==> ok && Plain(out)
    decreases t, 1
  {
    match t {
      case Special =>
        ok, out := false, t;
      case File(data, perm) =>
        var updated := RewriteText(data, archives);
        ok := h.Attempt();
        out := File(updated, perm);
      case Dir(_, perm) =>
        var kids;
        ok, kids := RewriteEntries(h, t, archives);
        out := Dir(kids, perm);
        if ok {
          RewrittenAll(t, archives, kids);
        }
    }
  }

  predicate RewrittenSome(t: Tree, archives: seq<ImageArchive>, kids: map<Name, Tree>)
    requires t.Dir?
  {
    forall n :: n in kids ==> n in t.kids && kids[n] == RewrittenTree(t.kids[n], archives)
  }

  lemma RewrittenAll(t: Tree, archives: seq<ImageArchive>, kids: map<Name, Tree>)
    requires t.Dir? && RewrittenSome(t, archives, kids) && kids.Keys == t.kids.Keys
    ensures Dir(kids, t.perm) == RewrittenTree(t, archives)
  {
    var r := RewrittenTree(t, archives);
    assert r.Dir? && r.kids.Keys == kids.Keys;
    forall n | n in kids ensures r.kids[n] == kids[n] { }
    assert r.kids == kids;
  }

  method RewriteEntries(h: Host, t: Tree, archives: seq<ImageArchive>) returns (ok: bool, kids: map<Name, Tree>)
    requires t.Dir?
    modifies h`faults
    ensures h.faults >= old(h.faults)
    ensures ok ==> kids.Keys == t.kids.Keys && RewrittenSome(t, archives, kids)
    ensures h.faults == old(h.faults) && Plain(t) ==> ok && forall n :: n in kids ==> Plain(kids[n])
    decreases t, 0
  {
    var names := SortedNames(t.kids.Keys);
    kids := map[];
    var k := 0;
    while k < |names|
      invariant 0 <= k <= |names|
      invariant h.faults >= old(h.faults)
      invariant RewrittenSome(t, archives, kids)
      invariant h.faults == old(h.faults) && Plain(t) ==> forall n :: n in kids ==> Plain(kids[n])
      invariant forall n :: n in kids <==> n in names[..k]
    {
      assert names[k] in names;
      assert names[..k + 1] == names[..k] + [names[k]];
      var n: Name := names[k];
      var sub;
      ok, sub := RewriteTree(h, t.kids[n], archives);
      kids := kids[n := sub];
      if !ok {
        return;
      }
      k := k + 1;
    }
    assert names[..|names|] == names;
    ok := true;
  }

  /** Rewrites the definitions already in the unpublished directory. */
  method RewriteDefinitions(h: Host, job: Job, archives: seq<ImageArchive>, ghost start: NodeState) returns (ok: bool)
    requires h.partial.Some? && DefinitionsCaptured(job.active, false, [], start, h.partial.value)
    modifies h`partial, h`faults
    ensures h.partial.Some? && Others({DEFINITIONS}, old(h.partial.value), h.partial.value)
    ensures h.faults >= old(h.faults)
    ensures ok ==> DefinitionsCaptured(job.active, true, archives, start, h.partial.value)
    ensures h.faults == old(h.faults) && Plain(old(h.partial.value[DEFINITIONS])) ==> ok && Plain(h.partial.value[DEFINITIONS])
    ensures ok && RewritesSimultaneously(archives) ==>
      Substituted(old(h.partial.value[DEFINITIONS]), h.partial.value[DEFINITIONS], archives)
  {
    hide Lookup, RewritesSimultaneously, Substituted;
    if RewritesSimultaneously(archives) {
      Substitutes(h.partial.value[DEFINITIONS], archives);
    }
    var defs := h.partial.value[DEFINITIONS];
    var out;
    ok, out := RewriteTree(h, defs, archives);
    if !ok {
      h.Spoil(DEFINITIONS);
    } else {
      h.Place(DEFINITIONS, out);
      forall i | 0 <= i < |job.active| ensures DefinitionKept(start.files, job.active[i], true, archives, out) {
        OneLevel(defs, job.active[i]);
        OneLevel(out, job.active[i]);
      }
    }
  }
}
