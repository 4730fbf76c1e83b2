/** `backupGitea`: the application is stopped around its database dump and file
    copy, and started again on every path. */
module GiteaBackup {
  import opened Text
  import opened Trees
  import opened Edits
  import opened Manifests
  import opened Capture
  import opened Hosts

  /** A snapshot copy is exact; a file copy keeps only owner modes. */
  function Captured(snapshot: bool, t: Tree): Tree
  {
    if snapshot then t else Masked(t)
  }

  lemma CapturedKeepsContent(snapshot: bool, t: Tree)
    ensures Content(Captured(snapshot, t)) == Content(t)
  {
    MaskedKeepsContent(t);
  }

  /** Where Gitea's files are taken from and which entry receives them. */
  function GiteaSource(cfg: Config, files: Tree): Path
  {
    if IsDirAt(files, cfg.giteaStack) then cfg.giteaStack else GITEA_FILES
  }

  function GiteaTarget(cfg: Config, files: Tree): Name
  {
    if IsDirAt(files, cfg.giteaStack) then GITEA_STACK else GITEA_DATA
  }

  predicate DumpIn(tools: Tools, cut: NodeState, kids: map<Name, Tree>, entry: Name, db: string)
  {
    db in cut.dbs && entry in kids && kids[entry] == File(tools.dump(cut.dbs[db]), MODE_0600)
  }

  /** The files entry shows Gitea's files of the state `cut`. */
  predicate GiteaFiles(cfg: Config, snapshot: bool, cut: NodeState, kids: map<Name, Tree>)
  {
    && FilesIn(snapshot, cut, GiteaSource(cfg, cut.files), GiteaTarget(cfg, cut.files), kids)
    && (GiteaTarget(cfg, cut.files) == GITEA_DATA ==> GITEA_STACK !in kids)
  }

  predicate FilesIn(snapshot: bool, cut: NodeState, source: Path, destination: Name, kids: map<Name, Tree>)
  {
    && IsDirAt(cut.files, source) && destination in kids
    && kids[destination] == Captured(snapshot, Lookup(cut.files, source).value)
  }

  /** The dump shows the state `dump`. The files show `cut` if they come from a snapshot
      or, `whole`, from a Gitea that could not write. */
  predicate GiteaCaptured(cfg: Config, tools: Tools, whole: bool, snapshot: bool, dump: NodeState, cut: NodeState,
                          kids: map<Name, Tree>)
  {
    && DumpIn(tools, dump, kids, GITEA_DUMP, GITEA_DB)
    && (whole || snapshot ==> GiteaFiles(cfg, snapshot, cut, kids))
  }

  /** The node went through these states; if Gitea could not write they are one, with
      Gitea down. */
  ghost predicate GiteaPassed(before: seq<Moment>, after: seq<Moment>, whole: bool, snapshot: bool, dump: NodeState,
                              cut: NodeState)
  {
    && Passed(before, after, dump, false, false)
    && (whole ==> dump == cut) && (whole || snapshot ==> Passed(before, after, cut, whole, false))
  }

  lemma GiteaPassedWithin(a: seq<Moment>, b: seq<Moment>, c: seq<Moment>, d: seq<Moment>, whole: bool, snapshot: bool,
                          dump: NodeState, cut: NodeState)
    requires GiteaPassed(b, c, whole, snapshot, dump, cut) && |a| <= |b| && c <= d
    ensures GiteaPassed(a, d, whole, snapshot, dump, cut)
  {
    hide Passed;
    PassedWithin(a, b, c, d, dump, false, false);
    if whole || snapshot {
      PassedWithin(a, b, c, d, cut, whole, false);
    }
  }

  predicate GiteaReady(cfg: Config, btrfs: bool, node: NodeState, running: set<string>)
  {
    && GITEA_DB in running && GITEA_DB in node.dbs
    && (cfg.requireBtrfs ==> btrfs && IsDirAt(node.files, cfg.giteaStack))
    && PlainDirAt(node.files, GiteaSource(cfg, node.files))
  }

  /** What dump and copy made between two histories show. */
  ghost predicate Halves(tools: Tools, down: bool, snapshot: bool, dump: NodeState, cut: NodeState, source: Path,
                         destination: Name, kids: map<Name, Tree>, before: seq<Moment>, after: seq<Moment>)
  {
    && DumpIn(tools, dump, kids, GITEA_DUMP, GITEA_DB)
    && (down || snapshot ==> FilesIn(snapshot, cut, source, destination, kids))
    && GiteaPassed(before, after, down, snapshot, dump, cut)
  }

  lemma HalvesWithin(tools: Tools, down: bool, snapshot: bool, dump: NodeState, cut: NodeState, source: Path, destination: Name,
                     kids: map<Name, Tree>, a: seq<Moment>, b: seq<Moment>, c: seq<Moment>, d: seq<Moment>)
    requires Halves(tools, down, snapshot, dump, cut, source, destination, kids, b, c) && |a| <= |b| && c <= d
    ensures Halves(tools, down, snapshot, dump, cut, source, destination, kids, a, d)
  {
    hide GiteaPassed, DumpIn, FilesIn;
    GiteaPassedWithin(a, b, c, d, down, snapshot, dump, cut);
  }

  /** Dump, then copy. While Gitea is stopped nothing it owns can change in between,
      so both show the node as it is when the copy is made. A running one may write in
      between, and while its files are copied one by one. */
  method DumpAndCopy(h: Host, cfg: Config, tools: Tools, source: Path, destination: Name)
    returns (ok: bool, snap: bool, ghost dump: NodeState)
    requires GoodLayout(cfg) && h.partial.Some? && destination != GITEA_DUMP
    requires (source == cfg.giteaStack || source == GITEA_FILES) && IsDirAt(h.node.files, source)
    modifies h`node, h`partial, h`faults, h`trail
    ensures h.faults >= old(h.faults)
    ensures h.partial.Some? && Others({GITEA_DUMP, destination}, old(h.partial.value), h.partial.value)
    ensures ServicesOnly(cfg, old(h.node), h.node) && old(h.trail) <= h.trail
    ensures ok ==> Halves(tools, "gitea" !in h.running, snap, dump, h.node, source, destination, h.partial.value, old(h.trail), h.trail)
    ensures ok && cfg.requireBtrfs ==> snap
    ensures h.faults == old(h.faults) && Readable(cfg, h.btrfs, old(h.node), source) ==> ok
  {
    hide Lookup, PlainDirAt, Masked, ServicesOnly, Readable, Plain, Captured, GoodLayout, Passed;
    snap := false;
    ok, dump := DumpGitea(h, cfg, tools, source);
    if !ok {
      return;
    }
    ReadableNow(cfg, h.btrfs, h.node, source);
    var copied;
    ok, snap, copied := CopySource(h, cfg, Lookup(h.node.files, source).value, "gitea" in h.running);
    if !ok {
      h.Spoil(destination);
      return;
    }
    h.Place(destination, copied);
  }

  /** Gitea's dump, and what happens until its files are looked at. */
  method DumpGitea(h: Host, cfg: Config, tools: Tools, source: Path) returns (ok: bool, ghost dump: NodeState)
    requires GoodLayout(cfg) && h.partial.Some? && (source == cfg.giteaStack || source == GITEA_FILES)
    modifies h`node, h`partial, h`faults, h`trail
    ensures h.faults >= old(h.faults)
    ensures h.partial.Some? && Others({GITEA_DUMP}, old(h.partial.value), h.partial.value)
    ensures ServicesOnly(cfg, old(h.node), h.node) && old(h.trail) <= h.trail
    ensures ok ==> DumpIn(tools, dump, h.partial.value, GITEA_DUMP, GITEA_DB)
    ensures GiteaPassed(old(h.trail), h.trail, "gitea" !in h.running, true, dump, h.node)
    ensures IsDirAt(h.node.files, source) <==> IsDirAt(old(h.node).files, source)
    ensures Readable(cfg, h.btrfs, old(h.node), source) ==> Readable(cfg, h.btrfs, h.node, source)
    ensures h.faults == old(h.faults) && Readable(cfg, h.btrfs, old(h.node), source) ==> ok
  {
    hide Lookup, PlainDirAt, ServicesOnly, SameGitea, SameHarbor, Readable, Plain, GoodLayout, Passed, DumpIn, IsDirAt;
    h.Drift(cfg);
    ghost var seen, first := h.trail, h.node;
    PassedLast(old(h.trail), seen, Moment(first, h.running, h.harborReadOnly));
    PassedAnyway(old(h.trail), old(h.trail), seen, first, "gitea" !in h.running, h.harborReadOnly);
    DriftKeepsReadable(cfg, h.btrfs, old(h.node), first, source);
    ReadableNow(cfg, h.btrfs, first, source);
    ok := h.DumpPostgres(tools, GITEA_DUMP, GITEA_DB);
    h.Drift(cfg);
    PassedLast(seen, h.trail, Moment(h.node, h.running, h.harborReadOnly));
    PassedAnyway(old(h.trail), seen, h.trail, h.node, "gitea" !in h.running, h.harborReadOnly);
    ServicesOnlyOn(cfg, old(h.node), first, h.node);
    DriftKeepsReadable(cfg, h.btrfs, first, h.node, source);
    PassedWithin(old(h.trail), old(h.trail), seen, h.trail, first, false, false);
    dump := first;
    Dumped(tools, first, h.partial.value, GITEA_DUMP, GITEA_DB);
    if "gitea" !in h.running {
      StillDumped(cfg, tools, first, h.node, h.partial.value);
      dump := h.node;
    }
  }

  lemma Dumped(tools: Tools, cut: NodeState, kids: map<Name, Tree>, entry: Name, db: string)
    ensures db in cut.dbs && entry in kids && kids[entry] == File(tools.dump(cut.dbs[db]), MODE_0600) ==>
      DumpIn(tools, cut, kids, entry, db)
  {
  }

  lemma PassedAnyway(before: seq<Moment>, seen: seq<Moment>, after: seq<Moment>, node: NodeState, down: bool, still: bool)
    requires Passed(seen, after, node, down, still) && |before| <= |seen|
    ensures Passed(before, after, node, down, false) && Passed(before, after, node, false, false)
  {
  }

  /** What was dumped from a stopped Gitea is also what it holds later. */
  lemma StillDumped(cfg: Config, tools: Tools, a: NodeState, b: NodeState, dumped: map<Name, Tree>)
    requires SameGitea(cfg, a, b)
    ensures DumpIn(tools, a, dumped, GITEA_DUMP, GITEA_DB) ==> DumpIn(tools, b, dumped, GITEA_DUMP, GITEA_DB)
  {
    hide Lookup;
  }

  /** A snapshot where the source is a subvolume, else a file copy unless forbidden. A
      file copy of a live source may mix what is there at different times. */
  method CopySource(h: Host, cfg: Config, current: Tree, live: bool) returns (ok: bool, used: bool, copied: Tree)
    modifies h`faults
    ensures h.faults >= old(h.faults)
    ensures ok && (used || !live) ==> copied == Captured(used, current)
    ensures ok && cfg.requireBtrfs ==> used
    ensures h.faults == old(h.faults) && Plain(current) && (cfg.requireBtrfs ==> h.btrfs) ==> ok
  {
    used, ok, copied := h.CopySnapshot(current);
    if ok && !used {
      if cfg.requireBtrfs {
        return false, used, copied;
      }
      ok, copied := h.CopyTree(current, false);
      if live {
        copied := *;
      }
    }
  }

  lemma ReadableNow(cfg: Config, btrfs: bool, node: NodeState, source: Path)
    ensures Readable(cfg, btrfs, node, source) ==>
      GITEA_DB in node.dbs && IsDirAt(node.files, source) && Plain(Lookup(node.files, source).value) && (cfg.requireBtrfs ==> btrfs)
  {
  }

  predicate Readable(cfg: Config, btrfs: bool, node: NodeState, source: Path)
  {
    GITEA_DB in node.dbs && PlainDirAt(node.files, source) && (cfg.requireBtrfs ==> btrfs)
  }

  /** The part between stop and restart. When Gitea was stopped here, or was not
      running, the capture shows one moment of the node, with Gitea down. */
  method Quiesced(h: Host, cfg: Config, tools: Tools, source: Path, destination: Name, wasRunning: bool)
    returns (ok: bool, boundary: Boundary, snap: bool, ghost dump: NodeState, ghost cut: NodeState)
    requires GoodLayout(cfg) && h.partial.Some? && destination != GITEA_DUMP
    requires (source == cfg.giteaStack || source == GITEA_FILES) && IsDirAt(h.node.files, source)
    modifies h`node, h`running, h`partial, h`faults, h`clock, h`trail
    ensures h.faults >= old(h.faults)
    ensures h.partial.Some? && Others({GITEA_DUMP, destination}, old(h.partial.value), h.partial.value)
    ensures ServicesOnly(cfg, old(h.node), h.node) && old(h.trail) <= h.trail
    ensures h.running - {"gitea"} == old(h.running) - {"gitea"}
    ensures ok || h.faults == old(h.faults) ==> h.running == old(h.running) - if wasRunning then {"gitea"} else {}
    ensures ok ==> Halves(tools, wasRunning || "gitea" !in old(h.running), snap, dump, cut, source, destination, h.partial.value,
      old(h.trail), h.trail)
    ensures cut == h.node
    ensures ok ==> boundary.service == GITEA && KnownMethod(boundary.how) && (cfg.requireBtrfs ==> snap)
    ensures h.faults == old(h.faults) ==> old(h.clock) <= h.clock
    ensures ok && h.faults == old(h.faults) ==> old(h.clock) <= boundary.startedAt <= boundary.completedAt <= h.clock
    ensures h.faults == old(h.faults) && Readable(cfg, h.btrfs, old(h.node), source) ==> ok
  {
    hide Halves, Readable, ServicesOnly, SameGitea, SameHarbor, Lookup, KnownMethod, Passed;
    snap := false;
    h.Drift(cfg);
    ghost var first := h.node;
    ghost var seen := h.trail;
    DriftKeepsReadable(cfg, h.btrfs, old(h.node), h.node, source);
    boundary, dump, cut := Boundary("", "", 0, 0), h.node, h.node;
    ok := StopGitea(h, wasRunning);
    if !ok {
      return;
    }
    var started := h.Now();
    ok, snap, dump := DumpAndCopy(h, cfg, tools, source, destination);
    cut := h.node;
    ServicesOnlyOn(cfg, old(h.node), first, h.node);
    if !ok {
      return;
    }
    HalvesWithin(tools, "gitea" !in h.running, snap, dump, cut, source, destination, h.partial.value, old(h.trail), seen, h.trail, h.trail);
    var completed := h.Now();
    var how := MethodName(snap, wasRunning);
    boundary := Boundary(GITEA, how, started, completed);
  }

  /** A failing stop leaves the container running or not. */
  method StopGitea(h: Host, wasRunning: bool) returns (ok: bool)
    modifies h`running, h`faults
    ensures h.faults >= old(h.faults)
    ensures h.running - {"gitea"} == old(h.running) - {"gitea"}
    ensures ok ==> h.running == old(h.running) - if wasRunning then {"gitea"} else {}
    ensures h.faults == old(h.faults) ==> ok
  {
    ok := true;
    if wasRunning {
      ok := h.Attempt();
      var down := *;
      if ok || down {
        h.running := h.running - {"gitea"};
      }
    }
  }

  /** The four names a boundary's method may have. */
  method MethodName(snapshot: bool, wasRunning: bool) returns (how: string)
    ensures KnownMethod(how)
  {
    how := QUIESCED + if snapshot then BY_SNAPSHOT else BY_COPY;
    if !wasRunning {
      how := ALREADY_STOPPED + how[|QUIESCED|..];
    }
  }

  /** Gitea's files have the same place before and after anything Gitea does. */
  lemma ShownIsCaptured(cfg: Config, tools: Tools, down: bool, snapshot: bool, a: NodeState, dump: NodeState, cut: NodeState,
                        earlier: map<Name, Tree>, kids: map<Name, Tree>, before: seq<Moment>, after: seq<Moment>)
    requires ServicesOnly(cfg, a, cut)
    requires Halves(tools, down, snapshot, dump, cut, GiteaSource(cfg, a.files), GiteaTarget(cfg, a.files), kids, before, after)
    requires Others({GITEA_DUMP, GiteaTarget(cfg, a.files)}, earlier, kids) && GITEA_STACK !in earlier
    ensures GiteaCaptured(cfg, tools, down, snapshot, dump, cut, kids) && GiteaPassed(before, after, down, snapshot, dump, cut)
  {
    hide Lookup, Captured, GiteaPassed;
  }

  lemma ReadyIsReadable(cfg: Config, btrfs: bool, node: NodeState, running: set<string>)
    requires GiteaReady(cfg, btrfs, node, running)
    ensures GITEA_DB in running && Readable(cfg, btrfs, node, GiteaSource(cfg, node.files))
    ensures IsDirAt(node.files, GiteaSource(cfg, node.files))
    ensures (cfg.requireBtrfs ==> IsDirAt(node.files, cfg.giteaStack))
  {
    hide Lookup, Plain;
  }

  lemma DriftKeepsReadable(cfg: Config, btrfs: bool, a: NodeState, b: NodeState, source: Path)
    requires ServicesOnly(cfg, a, b) && (source == cfg.giteaStack || source == GITEA_FILES)
    ensures Readable(cfg, btrfs, a, source) ==> Readable(cfg, btrfs, b, source)
    ensures IsDirAt(b.files, source) <==> IsDirAt(a.files, source)
  {
    hide Lookup, PlainDirAt;
  }

  /** Outcome of one call. When Gitea was seen running, one restart is issued on
      every path. When the listing was right about it, the dump and the files show one
      moment the node went through, with Gitea down. */
  method BackupGitea(h: Host, cfg: Config, tools: Tools)
    returns (ok: bool, boundary: Boundary, ghost snap: bool, ghost dump: NodeState, ghost cut: NodeState, ghost wasRunning: bool)
    requires GoodLayout(cfg) && h.partial.Some? && GITEA_STACK !in h.partial.value
    modifies h`node, h`running, h`partial, h`faults, h`clock, h`restarts, h`trail
    ensures h.faults >= old(h.faults)
    ensures h.partial.Some?
    ensures Others({GITEA_DUMP, GiteaTarget(cfg, old(h.node.files))}, old(h.partial.value), h.partial.value)
    ensures ServicesOnly(cfg, old(h.node), h.node) && old(h.trail) <= h.trail
    ensures wasRunning ==> "gitea" in old(h.running)
    ensures h.restarts == old(h.restarts) + if wasRunning then 1 else 0
    ensures h.running - {"gitea"} == old(h.running) - {"gitea"}
    ensures ok || h.faults == old(h.faults) ==> h.running == old(h.running)
    ensures ok ==> GiteaCaptured(cfg, tools, wasRunning || "gitea" !in old(h.running), snap, dump, cut, h.partial.value)
    ensures ok ==> GiteaPassed(old(h.trail), h.trail, wasRunning || "gitea" !in old(h.running), snap, dump, cut)
    ensures ServicesOnly(cfg, old(h.node), cut)
    ensures ok ==> boundary.service == GITEA && KnownMethod(boundary.how) && (cfg.requireBtrfs ==> snap)
    ensures h.faults == old(h.faults) ==> old(h.clock) <= h.clock
    ensures ok && h.faults == old(h.faults) ==> (wasRunning <==> "gitea" in old(h.running))
    ensures ok && h.faults == old(h.faults) ==> old(h.clock) <= boundary.startedAt <= boundary.completedAt <= h.clock
    ensures h.faults == old(h.faults) && GiteaReady(cfg, h.btrfs, old(h.node), old(h.running)) ==> ok
  {
    hide Lookup, PlainDirAt, KnownMethod, ServicesOnly, GiteaReady, GiteaCaptured, GiteaPassed, Halves, Readable;
    ServicesOnlyNot(cfg, h.node);
    if GiteaReady(cfg, h.btrfs, h.node, h.running) {
      ReadyIsReadable(cfg, h.btrfs, h.node, h.running);
    }
    boundary, snap, dump, cut, wasRunning := Boundary("", "", 0, 0), false, h.node, h.node, false;
    var hasDatabase := h.ContainerExists(GITEA_DB);
    if !hasDatabase {
      return false, boundary, snap, dump, cut, wasRunning;
    }
    var found, source, destination := SelectSource(cfg, h.node.files);
    if !found {
      return false, boundary, snap, dump, cut, wasRunning;
    }
    var seenRunning := h.ContainerExists("gitea");
    wasRunning := seenRunning;
    ok, boundary, snap, dump, cut := StopCaptureStart(h, cfg, tools, source, destination, seenRunning);
    if ok {
      ShownIsCaptured(cfg, tools, wasRunning || "gitea" !in old(h.running), snap, old(h.node), dump, cut, old(h.partial.value),
        h.partial.value, old(h.trail), h.trail);
    }
  }

  /** The boundary, with the deferred restart that every path out of it runs. */
  method StopCaptureStart(h: Host, cfg: Config, tools: Tools, source: Path, destination: Name, wasRunning: bool)
    returns (ok: bool, boundary: Boundary, ghost snap: bool, ghost dump: NodeState, ghost cut: NodeState)
    requires GoodLayout(cfg) && h.partial.Some? && destination != GITEA_DUMP
    requires (source == cfg.giteaStack || source == GITEA_FILES) && IsDirAt(h.node.files, source)
    requires wasRunning ==> "gitea" in h.running
    modifies h`node, h`running, h`partial, h`faults, h`clock, h`restarts, h`trail
    ensures h.faults >= old(h.faults)
    ensures h.partial.Some? && Others({GITEA_DUMP, destination}, old(h.partial.value), h.partial.value)
    ensures ServicesOnly(cfg, old(h.node), h.node) && old(h.trail) <= h.trail && ServicesOnly(cfg, old(h.node), cut)
    ensures h.restarts == old(h.restarts) + if wasRunning then 1 else 0
    ensures h.running - {"gitea"} == old(h.running) - {"gitea"}
    ensures ok || h.faults == old(h.faults) ==> h.running == old(h.running)
    ensures ok ==> Halves(tools, wasRunning || "gitea" !in old(h.running), snap, dump, cut, source, destination, h.partial.value,
      old(h.trail), h.trail)
    ensures ok ==> boundary.service == GITEA && KnownMethod(boundary.how) && (cfg.requireBtrfs ==> snap)
    ensures h.faults == old(h.faults) ==> old(h.clock) <= h.clock
    ensures ok && h.faults == old(h.faults) ==> old(h.clock) <= boundary.startedAt <= boundary.completedAt <= h.clock
    ensures h.faults == old(h.faults) && Readable(cfg, h.btrfs, old(h.node), source) ==> ok
  {
    hide Halves, Readable, Others, ServicesOnly, Lookup, KnownMethod, Passed;
    var used;
    ok, boundary, used, dump, cut := Quiesced(h, cfg, tools, source, destination, wasRunning);
    snap := used;
    if wasRunning {
      ghost var copied := h.node;
      ghost var seen := h.trail;
      var restarted := RestartGitea(h, cfg);
      ServicesOnlyOn(cfg, old(h.node), copied, h.node);
      if ok {
        HalvesWithin(tools, true, snap, dump, cut, source, destination, h.partial.value, old(h.trail), old(h.trail), seen, h.trail);
      }
      ok := ok && restarted;
    }
  }

  // --------------------------------------------- when the listing was wrong

  predicate HasGitea(cfg: Config, node: NodeState)
  {
    GITEA_DB in node.dbs && IsDirAt(node.files, GiteaSource(cfg, node.files))
  }

  /** A dump made of `b` and files copied from `c` both look like the one state `s`. */
  predicate LooksLike(cfg: Config, tools: Tools, snap: bool, b: NodeState, c: NodeState, s: NodeState)
    requires HasGitea(cfg, b) && HasGitea(cfg, c) && HasGitea(cfg, s)
  {
    && tools.dump(b.dbs[GITEA_DB]) == tools.dump(s.dbs[GITEA_DB])
    && Captured(snap, Lookup(c.files, GiteaSource(cfg, c.files)).value)
       == Captured(snap, Lookup(s.files, GiteaSource(cfg, s.files)).value)
  }

  /** Whatever happens between dump and copy, they show one of the two states. */
  ghost predicate NeverTorn(cfg: Config, tools: Tools, snap: bool, up: bool)
  {
    forall b, c :: Moved(cfg, b, c, up, true) && HasGitea(cfg, b) && HasGitea(cfg, c) ==>
      LooksLike(cfg, tools, snap, b, c, b) || LooksLike(cfg, tools, snap, b, c, c)
  }

  /** A capture is whole for certain if and only if Gitea is down between its two
      halves. It is not when the listing that is to tell whether Gitea runs fails. */
  lemma WholeExactly(cfg: Config, tools: Tools, snap: bool, up: bool)
    requires GoodLayout(cfg) && Inverse(tools)
    ensures NeverTorn(cfg, tools, snap, up) <==> !up
  {
    if up {
      var b, c := TornExample(cfg);
      assert tools.load(tools.dump("")) != tools.load(tools.dump("x"));
      NewFileSeen(snap);
      assert !LooksLike(cfg, tools, snap, b, c, b) && !LooksLike(cfg, tools, snap, b, c, c) by {
        hide Lookup, Captured;
      }
    } else {
      hide Lookup, Captured, PlainDirAt;
    }
  }

  lemma NewFileSeen(snap: bool)
    ensures Captured(snap, EMPTY_DIR) != Captured(snap, Dir(map["new" := File("x", MODE_0600)], MKDIR_MODE))
  {
    var t := Dir(map["new" := File("x", MODE_0600)], MKDIR_MODE);
    assert "new" in Captured(snap, t).kids && "new" !in Captured(snap, EMPTY_DIR).kids;
  }

  /** Gitea writes a file and its database between the dump and the copy. */
  lemma TornExample(cfg: Config) returns (b: NodeState, c: NodeState)
    requires GoodLayout(cfg)
    ensures Moved(cfg, b, c, true, true) && HasGitea(cfg, b) && HasGitea(cfg, c)
    ensures !IsDirAt(b.files, cfg.giteaStack) && !IsDirAt(c.files, cfg.giteaStack)
    ensures b.dbs[GITEA_DB] == "" && c.dbs[GITEA_DB] == "x"
    ensures Lookup(b.files, GITEA_FILES) == Some(EMPTY_DIR)
    ensures Lookup(c.files, GITEA_FILES) == Some(Dir(map["new" := File("x", MODE_0600)], MKDIR_MODE))
  {
    var t := Dir(map["new" := File("x", MODE_0600)], MKDIR_MODE);
    assert Plain(t);
    hide Lookup, PutAt, CanPut, Moved, SameShape, Plain, GoodLayout;
    var files := EmptyGitea(cfg);
    FilesReplaced(cfg, files, t);
    b := NodeState(files, map[GITEA_DB := ""], "");
    var mid := b.(files := PutAt(files, GITEA_FILES, t));
    OwnFilesOnly(cfg, b, GITEA_FILES, t);
    c := mid.(dbs := map[GITEA_DB := "x"]);
    WritesDatabase(cfg, mid, c);
    assert Moved(cfg, b, mid, true, true) by { MovedMore(cfg, b, mid); }
    MovedOn(cfg, b, mid, c, true, true);
  }

  lemma EmptyGitea(cfg: Config) returns (files: Tree)
    requires GoodLayout(cfg)
    ensures files.Dir? && Lookup(files, GITEA_FILES) == Some(EMPTY_DIR) && PlainDirAt(files, GITEA_FILES)
    ensures CanPut(files, GITEA_FILES) && Lookup(files, cfg.giteaStack) == None
  {
    var data := Dir(map["gitea" := EMPTY_DIR], MKDIR_MODE);
    files := Dir(map["data" := data], MKDIR_MODE);
    NowhereElse(files, data, cfg.giteaStack);
    AtGitea(files, data);
  }

  lemma MovedMore(cfg: Config, a: NodeState, b: NodeState)
    requires Moved(cfg, a, b, true, false)
    ensures Moved(cfg, a, b, true, true)
  {
    hide ServicesOnly, SameHarbor;
  }

  lemma FilesReplaced(cfg: Config, files: Tree, t: Tree)
    requires GoodLayout(cfg) && files.Dir? && PlainDirAt(files, GITEA_FILES) && CanPut(files, GITEA_FILES)
    requires t.Dir? && Plain(t)
    ensures Lookup(PutAt(files, GITEA_FILES, t), GITEA_FILES) == Some(t)
    ensures Lookup(PutAt(files, GITEA_FILES, t), cfg.giteaStack) == Lookup(files, cfg.giteaStack)
    ensures SameShape(cfg, files, PutAt(files, GITEA_FILES, t))
  {
    var next := PutAt(files, GITEA_FILES, t);
    hide Lookup, PutAt, Plain;
    HomesApart(cfg);
    PutThenLookup(files, GITEA_FILES, t);
    PutElsewhere(files, GITEA_FILES, t, cfg.giteaStack);
    forall s ensures Lookup(next, HARBOR_FILES + s) == Lookup(files, HARBOR_FILES + s) {
      BelowApart(GITEA_FILES, HARBOR_FILES, s);
      PutElsewhere(files, GITEA_FILES, t, HARBOR_FILES + s);
    }
    PutElsewhere(files, GITEA_FILES, t, HARBOR_FILES);
    ShapeKept(cfg, files, next);
  }

  lemma WritesDatabase(cfg: Config, a: NodeState, b: NodeState)
    requires b == a.(dbs := b.dbs) && a.dbs.Keys == b.dbs.Keys == {GITEA_DB}
    ensures Moved(cfg, a, b, true, true)
  {
    hide Lookup, IsDirAt, PlainDirAt, PartsPlain;
  }

  lemma ShapeKept(cfg: Config, a: Tree, b: Tree)
    requires a.Dir? && b.Dir? && Lookup(b, cfg.giteaStack) == Lookup(a, cfg.giteaStack)
    requires PlainDirAt(a, GITEA_FILES) && PlainDirAt(b, GITEA_FILES)
    requires forall s :: Lookup(b, HARBOR_FILES + s) == Lookup(a, HARBOR_FILES + s)
    requires Lookup(b, HARBOR_FILES) == Lookup(a, HARBOR_FILES)
    ensures SameShape(cfg, a, b)
  {
    hide Lookup, Plain;
  }

  lemma AtGitea(files: Tree, data: Tree)
    requires files == Dir(map["data" := data], MKDIR_MODE) && data == Dir(map["gitea" := EMPTY_DIR], MKDIR_MODE)
    ensures Lookup(files, GITEA_FILES) == Some(EMPTY_DIR) && CanPut(files, GITEA_FILES) && Plain(EMPTY_DIR)
  {
    assert GITEA_FILES[1..] == ["gitea"] && GITEA_FILES[1..][1..] == [];
    assert Lookup(data, ["gitea"]) == Lookup(EMPTY_DIR, []);
  }

  lemma NowhereElse(files: Tree, data: Tree, p: Path)
    requires files == Dir(map["data" := data], MKDIR_MODE) && data == Dir(map["gitea" := EMPTY_DIR], MKDIR_MODE)
    requires p != [] && Apart(p, GITEA_FILES)
    ensures Lookup(files, p) == None
  {
    assert |p| == 1 && p[0] == "data" ==> p <= GITEA_FILES;
    assert |p| > 1 && p[0] == "data" && p[1] == "gitea" ==> GITEA_FILES <= p;
    if p[0] == "data" {
      assert p[1..][0] == p[1];
    }
  }

  /** The Gitea stack directory, or the older data directory when that is allowed. */
  method SelectSource(cfg: Config, files: Tree) returns (found: bool, source: Path, destination: Name)
    ensures source == GiteaSource(cfg, files) || !found
    ensures destination == GiteaTarget(cfg, files) || !found
    ensures found <==> IsDirAt(files, GiteaSource(cfg, files)) && (cfg.requireBtrfs ==> IsDirAt(files, cfg.giteaStack))
  {
    source, destination := cfg.giteaStack, GITEA_STACK;
    if !IsDirAt(files, source) {
      if cfg.requireBtrfs {
        return false, source, destination;
      }
      source, destination := GITEA_FILES, GITEA_DATA;
    }
    found := IsDirAt(files, source);
  }

  /** `restartGitea`: one start command, then waiting for a healthy container. */
  method RestartGitea(h: Host, cfg: Config) returns (ok: bool)
    requires GoodLayout(cfg)
    modifies h`node, h`running, h`faults, h`restarts, h`trail
    ensures h.restarts == old(h.restarts) + 1
    ensures h.faults >= old(h.faults)
    ensures ok ==> h.running == old(h.running) + {"gitea"}
    ensures h.running - {"gitea"} == old(h.running) - {"gitea"}
    ensures h.faults == old(h.faults) ==> ok
    ensures ServicesOnly(cfg, old(h.node), h.node) && old(h.trail) <= h.trail
  {
    hide ServicesOnly;
    ServicesOnlyNot(cfg, h.node);
    h.restarts := h.restarts + 1;
    ok := h.Attempt();
    if !ok {
      return;
    }
    h.running := h.running + {"gitea"};
    h.Drift(cfg);
    ok := h.Attempt();
  }
}
