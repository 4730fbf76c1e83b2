/** The steps of a restore that change the node: directories, databases, OpenBao. */
module RestoreSteps {
  import opened Text
  import opened Trees
  import opened Edits
  import opened StackScope
  import opened Manifests
  import opened Capture
  import opened Hosts
  import opened RestorePlan
  import Phases

  // ------------------------------------------------------------ one directory

  /** What an interrupted replacement of `p` may leave. */
  ghost predicate Torn(before: Tree, after: Tree, p: Path)
    requires p != []
  {
    after == before || after == RemoveAt(before, p) || (CanPut(before, p) && exists x :: after == PutAt(before, p, x))
    || exists k :: OnlyParents(before, after, p, k)
  }

  /** The first `k` components of `p` were missing and were made, and nothing else. */
  predicate OnlyParents(before: Tree, after: Tree, p: Path, k: nat)
  {
    && 0 < k < |p| && CanPut(before, p) && CanPut(before, p[..k]) && Lookup(before, p[..k]) == None
    && after == WithParents(before, p, k)
  }

  lemma TornByPut(before: Tree, p: Path, x: Tree)
    requires p != [] && CanPut(before, p)
    ensures Torn(before, PutAt(before, p, x), p)
  {
    hide PutAt;
  }

  predicate IsDir(t: Option<Tree>) { t.Some? && t.value.Dir? }

  /** `replaceDirContents`: clear or remove, create, copy. */
  method ReplaceDirContents(h: Host, src: Option<Tree>, dst: Path) returns (ok: bool)
    requires dst != []
    modifies h`node, h`faults
    ensures h.faults >= old(h.faults)
    ensures h.node == old(h.node).(files := h.node.files)
    ensures Torn(old(h.node.files), h.node.files, dst)
    ensures ok ==> IsDir(src) && CanPut(old(h.node.files), dst) && h.node.files == PutAt(old(h.node.files), dst, src.value)
    ensures h.faults == old(h.faults) && IsDir(src) && CanPut(old(h.node.files), dst) ==> ok
  {
    hide CanPut, PutAt, RemoveAt;
    if src.None? || !src.value.Dir? {
      return false;
    }
    if !CanPut(h.node.files, dst) {
      // Something on the way is not a directory, so none can be made below it.
      return false;
    }
    ok := h.Attempt();
    var before := h.node.files;
    if ok {
      h.node := h.node.(files := PutAt(before, dst, src.value));
      TornByPut(before, dst, src.value);
      return;
    }
    var removed: bool := *;
    var debris: Option<Tree> := *;
    if debris.Some? {
      h.node := h.node.(files := PutAt(before, dst, debris.value));
      TornByPut(before, dst, debris.value);
    } else if removed {
      h.node := h.node.(files := RemoveAt(before, dst));
    } else {
      var k: nat := *;
      if 0 < k < |dst| && CanPut(before, dst[..k]) && Lookup(before, dst[..k]) == None {
        h.node := h.node.(files := WithParents(before, dst, k));
        assert OnlyParents(before, h.node.files, dst, k);
      }
    }
  }

  // ---------------------------------------------------------- along the plan

  /** The first `k` edits of the plan are done. */
  ghost predicate AtStep(plan: seq<Edit>, k: nat, start: Tree, now: Tree)
  {
    && k <= |plan| && now == Apply(start, plan[..k])
    && (forall i :: 0 <= i < k ==> CanPut(start, plan[i].path))
    && Reached(plan, start, now)
  }

  lemma AtBeginning(plan: seq<Edit>, start: Tree)
    ensures AtStep(plan, 0, start, start)
  {
    ReachedAlready(plan, start);
  }

  lemma NextStep(plan: seq<Edit>, k: nat, start: Tree, now: Tree)
    requires AllApart(plan) && AtStep(plan, k, start, now) && k < |plan| && CanPut(now, plan[k].path)
    ensures AtStep(plan, k + 1, start, PutAt(now, plan[k].path, plan[k].sub))
  {
    hide Reached, CanPut, PutAt;
    var done := plan[..k];
    forall i | 0 <= i < k ensures Apart(done[i].path, plan[k].path) { }
    ApplyKeepsRoom(start, done, plan[k].path);
    assert plan[..k + 1][..k] == done;
    ReachedByEdit(plan, now, k, plan[k].sub);
    ReachedOn(plan, start, now, PutAt(now, plan[k].path, plan[k].sub));
  }

  lemma RoomAtStep(plan: seq<Edit>, k: nat, start: Tree, now: Tree)
    requires AllApart(plan) && AtStep(plan, k, start, now) && k < |plan| && Applicable(start, plan)
    ensures CanPut(now, plan[k].path)
  {
    hide Reached, CanPut;
    ApplyKeepsRoom(start, plan[..k], plan[k].path);
  }

  lemma TornWithin(plan: seq<Edit>, k: nat, start: Tree, now: Tree, next: Tree)
    requires AllApart(plan) && Reached(plan, start, now) && k < |plan| && plan[k].path != []
    requires Torn(now, next, plan[k].path)
    ensures Reached(plan, start, next)
  {
    hide Reached, CanPut, PutAt, RemoveAt;
    if next == RemoveAt(now, plan[k].path) {
      ReachedByEdit(plan, now, k, EMPTY_DIR);
      ReachedOn(plan, start, now, next);
    } else if exists j :: OnlyParents(now, next, plan[k].path, j) {
      var j :| OnlyParents(now, next, plan[k].path, j);
      ReachedByParents(plan, now, k, j);
      ReachedOn(plan, start, now, next);
    } else if next != now {
      var x :| next == PutAt(now, plan[k].path, x);
      ReachedByEdit(plan, now, k, x);
      ReachedOn(plan, start, now, next);
    }
  }

  /** One edit of the plan, whichever component it belongs to. */
  method DoEdit(h: Host, src: Option<Tree>, dst: Path, ghost plan: seq<Edit>, ghost k: nat,
                ghost start: Tree) returns (ok: bool)
    requires AllApart(plan) && k < |plan| && plan[k].path == dst && (src.Some? ==> plan[k].sub == src.value)
    requires AtStep(plan, k, start, h.node.files)
    modifies h`node, h`faults
    ensures h.faults >= old(h.faults)
    ensures h.node == old(h.node).(files := h.node.files)
    ensures Reached(plan, start, h.node.files)
    ensures ok ==> AtStep(plan, k + 1, start, h.node.files) && IsDir(src)
    ensures h.faults == old(h.faults) && IsDir(src) && Applicable(start, plan) ==> ok
  {
    hide CanPut, PutAt, RemoveAt, Reached, Apply;
    ghost var now := h.node.files;
    if Applicable(start, plan) {
      RoomAtStep(plan, k, start, now);
    }
    assert plan[k].path != [];
    ok := ReplaceDirContents(h, src, dst);
    TornWithin(plan, k, start, now, h.node.files);
    if ok {
      NextStep(plan, k, start, now);
    }
  }

  /** The backup holds every definition it declares. */
  predicate DefinitionsThere(m: Manifest, t: Tree)
    requires NamedStacks(m)
  {
    m.stackDefinitions ==> IsDirAt(t, [DEFINITIONS]) && (m.activeStacks.Some? ==> ActiveThere(t, m.activeStacks.value))
  }

  predicate ActiveThere(t: Tree, active: seq<string>)
    requires ValidNames(active)
  {
    forall i :: 0 <= i < |active| ==> DefinitionThere(t, active[i])
  }

  predicate DefinitionThere(t: Tree, name: string)
    requires ValidName(name)
  {
    ValidNameIsEntry(name);
    IsDirAt(t, [DEFINITIONS, name])
  }

  /** Rendered stack definitions: all at once for older manifests, else one by one. */
  method RestoreDefinitions(h: Host, m: Manifest, t: Tree, ghost plan: seq<Edit>, ghost start: Tree) returns (ok: bool)
    requires NamedStacks(m) && AllApart(plan) && DefinitionEdits(m, t) <= plan
    requires AtStep(plan, 0, start, h.node.files)
    modifies h`node, h`faults
    ensures h.faults >= old(h.faults)
    ensures h.node == old(h.node).(files := h.node.files)
    ensures Reached(plan, start, h.node.files)
    ensures ok ==> AtStep(plan, |DefinitionEdits(m, t)|, start, h.node.files) && DefinitionsThere(m, t)
    ensures h.faults == old(h.faults) && Applicable(start, plan) && DefinitionsThere(m, t) ==> ok
  {
    hide Lookup, CanPut, Reached, Apply, Applicable;
    ok := true;
    if m.stackDefinitions {
      if !IsDirAt(t, [DEFINITIONS]) {
        return false;
      }
      if m.activeStacks.None? {
        assert plan[0] == DefinitionEdits(m, t)[0];
        ok := DoEdit(h, Lookup(t, [DEFINITIONS]), STACKS, plan, 0, start);
      } else {
        ok := RestoreActiveStackDefinitions(h, t, m.activeStacks.value, plan, start);
      }
    }
  }

  method RestoreActiveStackDefinitions(h: Host, t: Tree, active: seq<string>, ghost plan: seq<Edit>,
                                       ghost start: Tree) returns (ok: bool)
    requires ValidNames(active) && AllApart(plan) && ActiveDefinitions(t, active) <= plan
    requires AtStep(plan, 0, start, h.node.files)
    modifies h`node, h`faults
    ensures h.faults >= old(h.faults)
    ensures h.node == old(h.node).(files := h.node.files)
    ensures Reached(plan, start, h.node.files)
    ensures ok ==> AtStep(plan, |active|, start, h.node.files) && ActiveThere(t, active)
    ensures h.faults == old(h.faults) && Applicable(start, plan) && ActiveThere(t, active) ==> ok
  {
    hide Lookup, CanPut, Reached, Apply, AllApart, Applicable;
    var k := 0;
    while k < |active|
      invariant 0 <= k <= |active|
      invariant h.faults >= old(h.faults)
      invariant h.node == old(h.node).(files := h.node.files)
      invariant AtStep(plan, k, start, h.node.files)
      invariant forall i :: 0 <= i < k ==> DefinitionThere(t, active[i])
    {
      ValidNameIsEntry(active[k]);
      var name: Name := active[k];
      assert plan[k] == ActiveDefinitions(t, active)[k];
      assert ActiveThere(t, active) ==> DefinitionThere(t, active[k]);
      ok := DoEdit(h, Lookup(t, [DEFINITIONS, name]), STACKS + [name], plan, k, start);
      if !ok {
        return;
      }
      k := k + 1;
    }
    ok := true;
  }

  /** A Gitea stack in the backup has a usable source. */
  ghost predicate GiteaThere(m: Manifest, t: Tree)
  {
    HasGiteaStack(m, t) ==> GiteaSourceOf(Sub(t, [GITEA_STACK])).Some?
  }

  /** Gitea's files: from the stack directory, or from the older data directory. */
  method RestoreGiteaFiles(h: Host, cfg: Config, m: Manifest, t: Tree, ghost plan: seq<Edit>, ghost from: nat,
                           ghost start: Tree) returns (ok: bool)
    requires AllApart(plan) && from <= |plan| && GiteaEdits(cfg, m, t) <= plan[from..]
    requires AtStep(plan, from, start, h.node.files)
    modifies h`node, h`faults
    ensures h.faults >= old(h.faults)
    ensures h.node == old(h.node).(files := h.node.files)
    ensures Reached(plan, start, h.node.files)
    ensures ok ==> AtStep(plan, from + |GiteaEdits(cfg, m, t)|, start, h.node.files)
    ensures ok && HasGiteaStack(m, t) ==> GiteaSourceOf(Sub(t, [GITEA_STACK])).Some?
    ensures h.faults == old(h.faults) && Applicable(start, plan) && GiteaThere(m, t) ==> ok
  {
    hide Lookup, CanPut, Reached, Apply, AllApart, Includes, GiteaSourceOf, Applicable;
    ok := true;
    if HasGiteaStack(m, t) {
      var source := SnapshotArtifactSource(Sub(t, [GITEA_STACK]));
      if source.None? {
        return false;
      }
      GiteaSourceHolds(Sub(t, [GITEA_STACK]));
      assert plan[from] == plan[from..][0] == GiteaEdits(cfg, m, t)[0];
      ok := DoEdit(h, Some(source.value.kids[GITEA_ENTRY]), cfg.giteaStack + [GITEA_ENTRY], plan, from, start);
    } else if HasGiteaData(m, t) {
      assert plan[from] == plan[from..][0] == GiteaEdits(cfg, m, t)[0];
      ok := DoEdit(h, Lookup(t, [GITEA_DATA]), GITEA_FILES, plan, from, start);
    }
  }

  lemma GiteaSourceHolds(t: Tree)
    ensures GiteaSourceOf(t).Some? ==> HoldsBoth(GiteaSourceOf(t).value)
  {
  }

  /** `restoreHarborData`: every sub-path in the backup, then a look at the password file. */
  method RestoreHarborData(h: Host, t: Tree, parts: seq<Path>, ghost plan: seq<Edit>, ghost from: nat,
                           ghost start: Tree) returns (ok: bool)
    requires forall i :: 0 <= i < |parts| ==> parts[i] != []
    requires AllApart(plan) && from <= |plan| && HarborEdits(t, parts) <= plan[from..]
    requires AtStep(plan, from, start, h.node.files)
    modifies h`node, h`faults
    ensures h.faults >= old(h.faults)
    ensures h.node == old(h.node).(files := h.node.files)
    ensures Reached(plan, start, h.node.files)
    ensures ok ==> AtStep(plan, from + |HarborEdits(t, parts)|, start, h.node.files)
    ensures ok ==> PasswordFileFound(h.node.files)
    ensures h.faults == old(h.faults) && Applicable(start, plan) ==>
      AtStep(plan, from + |HarborEdits(t, parts)|, start, h.node.files) && (ok <==> PasswordFileFound(h.node.files))
  {
    hide Lookup, CanPut, Reached, Apply, AllApart, HarborSource, Applicable, PasswordFileFound;
    var k := 0;
    while k < |parts|
      invariant 0 <= k <= |parts|
      invariant h.faults >= old(h.faults)
      invariant h.node == old(h.node).(files := h.node.files)
      invariant HarborEdits(t, parts[..k]) <= plan[from..]
      invariant AtStep(plan, from + |HarborEdits(t, parts[..k])|, start, h.node.files)
    {
      HarborOneMore(t, parts, k, plan[from..]);
      var source := HarborSource(t, parts[k]);
      HarborSourceIsDir(t, parts[k]);
      if source.Some? {
        ghost var at := |HarborEdits(t, parts[..k])|;
        assert plan[from + at] == plan[from..][at] == HarborEdits(t, parts[..k + 1])[at];
        ok := DoEdit(h, source, HARBOR_FILES + parts[k], plan, from + at, start);
        if !ok {
          return;
        }
      }
      k := k + 1;
    }
    assert parts[..|parts|] == parts;
    ok := PasswordFileFound(h.node.files);
  }

  lemma HarborSourceIsDir(t: Tree, s: Path)
    requires s != []
    ensures HarborSource(t, s).Some? ==> HarborSource(t, s).value.Dir?
  {
    hide Lookup;
  }

  lemma {:induction false} HarborPrefix(t: Tree, parts: seq<Path>, k: nat)
    requires forall i :: 0 <= i < |parts| ==> parts[i] != []
    requires k <= |parts|
    ensures HarborEdits(t, parts[..k]) <= HarborEdits(t, parts)
    decreases |parts|
  {
    hide HarborSource;
    if k < |parts| {
      HarborPrefix(t, parts[..|parts| - 1], k);
      assert parts[..|parts| - 1][..k] == parts[..k];
    } else {
      assert parts[..k] == parts;
    }
  }

  lemma HarborOneMore(t: Tree, parts: seq<Path>, k: nat, rest: seq<Edit>)
    requires forall i :: 0 <= i < |parts| ==> parts[i] != []
    requires k < |parts| && HarborEdits(t, parts) <= rest
    ensures HarborEdits(t, parts[..k + 1]) ==
      HarborEdits(t, parts[..k]) + if HarborSource(t, parts[k]).Some? then [Edit(HARBOR_FILES + parts[k], HarborSource(t, parts[k]).value)] else []
    ensures HarborEdits(t, parts[..k + 1]) <= rest
  {
    hide HarborSource;
    HarborPrefix(t, parts, k + 1);
    assert parts[..k + 1][..k] == parts[..k];
  }

  predicate PasswordFileFound(files: Tree)
  {
    var f := Lookup(files, HARBOR_FILES + ["core", "registry.passwd"]);
    f.Some? && f.value.File? && |f.value.data| > 0
  }

  /** The archived images: load them, then compare every image's id. */
  method LoadArchives(h: Host, m: Manifest, t: Tree) returns (ok: bool)
    modifies h`faults
    ensures h.faults >= old(h.faults)
    ensures h.faults == old(h.faults) || !IsFileAt(t, [OFFLINE_TAR]) ==> ok
  {
    hide Lookup;
    ok := true;
    if IsFileAt(t, [OFFLINE_TAR]) {
      ok := h.Attempt();
      var k := 0;
      while k < |m.archives| && ok
        invariant 0 <= k <= |m.archives|
        invariant h.faults >= old(h.faults)
        invariant h.faults == old(h.faults) ==> ok
      {
        ok := h.Attempt();
        k := k + 1;
      }
    }
  }

  /** The three groups of directories, in order; images are loaded after the first. */
  method RestoreDirectories(h: Host, cfg: Config, m: Manifest, t: Tree) returns (ok: bool)
    requires NamedStacks(m) && AllApart(Plan(cfg, m, t))
    modifies h`node, h`faults
    ensures h.faults >= old(h.faults)
    ensures h.node == old(h.node).(files := h.node.files)
    ensures Reached(Plan(cfg, m, t), old(h.node.files), h.node.files)
    ensures ok ==> AtStep(Plan(cfg, m, t), |Plan(cfg, m, t)|, old(h.node.files), h.node.files)
    ensures ok && HasGiteaStack(m, t) ==> GiteaSourceOf(Sub(t, [GITEA_STACK])).Some?
    ensures ok ==> DefinitionsThere(m, t)
    ensures ok && HasHarborData(m, t) ==> PasswordFileFound(h.node.files)
    ensures h.faults == old(h.faults) && DirectoriesReady(cfg, m, t, old(h.node.files)) ==> ok
  {
    hide Lookup, CanPut, Reached, Apply, AllApart, Includes, GiteaSourceOf, DefinitionEdits, GiteaEdits, HarborEdits;
    hide Plan, HasHarborData, HasGiteaStack, PasswordFileFound, IsDirAt, Applicable, DefinitionsThere, AtStep;
    ghost var plan, start := Plan(cfg, m, t), h.node.files;
    ghost var d, g := |DefinitionEdits(m, t)|, |GiteaEdits(cfg, m, t)|;
    AtBeginning(plan, start);
    PlanParts(cfg, m, t);
    ok := RestoreDefinitions(h, m, t, plan, start);
    if !ok { return; }
    // Modes of OpenBao's stack directory.
    ok := h.Attempt();
    if !ok { return; }
    ok := LoadArchives(h, m, t);
    if !ok { return; }
    ok := RestoreGiteaFiles(h, cfg, m, t, plan, d, start);
    if !ok { return; }
    if HasHarborData(m, t) {
      HarborOrderApart();
      ok := RestoreHarborData(h, t, HARBOR_ORDER, plan, d + g, start);
      if AtStep(plan, |plan|, start, h.node.files) {
        AllSteps(plan, start, h.node.files);
      }
    }
  }

  lemma AllSteps(plan: seq<Edit>, start: Tree, now: Tree)
    requires AtStep(plan, |plan|, start, now)
    ensures now == Apply(start, plan)
  {
    hide Reached, Apply;
    assert plan[..|plan|] == plan;
  }

  /** Nothing but a failing step keeps the directories from being restored. */
  ghost predicate DirectoriesReady(cfg: Config, m: Manifest, t: Tree, files: Tree)
    requires NamedStacks(m)
  {
    && Applicable(files, Plan(cfg, m, t)) && DefinitionsThere(m, t) && GiteaThere(m, t)
    && (HasHarborData(m, t) ==> PasswordFileFound(Apply(files, Plan(cfg, m, t))))
  }

  lemma PlanParts(cfg: Config, m: Manifest, t: Tree)
    requires NamedStacks(m)
    ensures forall i :: 0 <= i < |HARBOR_ORDER| ==> HARBOR_ORDER[i] != []
    ensures var plan, d, g := Plan(cfg, m, t), |DefinitionEdits(m, t)|, |GiteaEdits(cfg, m, t)|;
      && d + g <= |plan|
      && DefinitionEdits(m, t) <= plan && GiteaEdits(cfg, m, t) <= plan[d..]
      && (HasHarborData(m, t) ==> HarborEdits(t, HARBOR_ORDER) <= plan[d + g..] && |plan| == d + g + |HarborEdits(t, HARBOR_ORDER)|)
      && (!HasHarborData(m, t) ==> |plan| == d + g)
  {
    hide DefinitionEdits, GiteaEdits, HarborEdits, HasHarborData;
    HarborOrderApart();
    var plan, d, g := Plan(cfg, m, t), DefinitionEdits(m, t), GiteaEdits(cfg, m, t);
    assert plan[|d|..] == g + if HasHarborData(m, t) then HarborEdits(t, HARBOR_ORDER) else [];
    assert HasHarborData(m, t) ==> plan[|d| + |g|..] == HarborEdits(t, HARBOR_ORDER);
  }

  // ---------------------------------------------------------------- databases

  const READY_TRIES := 60
  const READY_IN_A_ROW := 3

  /** The readiness loop: up to sixty questions, three good answers in a row. */
  method WaitReady(h: Host) returns (ready: bool, ghost answers: seq<bool>)
    modifies h`faults
    ensures h.faults >= old(h.faults)
    ensures |answers| <= READY_TRIES
    ensures ready <==> |answers| >= READY_IN_A_ROW && answers[|answers| - READY_IN_A_ROW..] == [true, true, true]
    ensures !ready ==> |answers| == READY_TRIES
    ensures h.faults == old(h.faults) ==> ready
  {
    answers, ready := [], false;
    var consecutive := 0;
    var tries := 0;
    while tries < READY_TRIES && !ready
      invariant 0 <= tries <= READY_TRIES && |answers| == tries
      invariant 0 <= consecutive <= READY_IN_A_ROW && consecutive <= tries
      invariant forall i :: tries - consecutive <= i < tries ==> answers[i]
      invariant consecutive < tries ==> consecutive == READY_IN_A_ROW || !answers[tries - consecutive - 1]
      invariant ready <==> consecutive == READY_IN_A_ROW
      invariant h.faults >= old(h.faults)
      invariant h.faults == old(h.faults) ==> consecutive == tries
    {
      var answer := h.Attempt();
      answers := answers + [answer];
      tries := tries + 1;
      if answer {
        consecutive := consecutive + 1;
        ready := consecutive >= READY_IN_A_ROW;
      } else {
        consecutive := 0;
      }
    }
    if |answers| >= READY_IN_A_ROW && answers[|answers| - READY_IN_A_ROW..] == [true, true, true] {
      ghost var last := answers[|answers| - READY_IN_A_ROW..];
      assert last[0] && last[1] && last[2];
      assert answers[tries - 1] && answers[tries - 2] && answers[tries - 3];
    }
  }

  /** Dropping and creating the database again, up to ten times. */
  method RecreateDatabase(h: Host, db: string) returns (ok: bool)
    modifies h`node, h`faults
    ensures h.faults >= old(h.faults)
    ensures h.node == old(h.node).(dbs := h.node.dbs)
    ensures h.node.dbs - {db} == old(h.node.dbs) - {db}
    ensures h.faults == old(h.faults) ==> ok
  {
    ok := false;
    var tries := 0;
    while tries < 10 && !ok
      invariant h.faults >= old(h.faults)
      invariant h.faults == old(h.faults) ==> tries == 0 || ok
      invariant h.node == old(h.node).(dbs := h.node.dbs)
      invariant h.node.dbs - {db} == old(h.node.dbs) - {db}
    {
      var emptied: Data := *;
      h.node := h.node.(dbs := h.node.dbs[db := emptied]);
      ok := h.Attempt();
      tries := tries + 1;
    }
  }

  /** `restorePostgres`: start the container, recreate the database, load the dump,
      run the optional statement. */
  method RestorePostgres(h: Host, tools: Tools, t: Tree, entry: Name, db: string, reset: bool) returns (ok: bool)
    modifies h`node, h`faults
    ensures h.faults >= old(h.faults)
    ensures h.node == old(h.node).(dbs := h.node.dbs)
    ensures h.node.dbs - {db} == old(h.node.dbs) - {db}
    ensures ok ==> db in h.node.dbs && DumpValue(tools, t, entry, reset) == Some(h.node.dbs[db])
    ensures h.faults == old(h.faults) && DumpValue(tools, t, entry, reset).Some? ==> ok
  {
    hide Lookup;
    ok := h.Attempt();
    if !ok { return; }
    ghost var answers;
    ok, answers := WaitReady(h);
    if !ok { return; }
    ok := RecreateDatabase(h, db);
    if !ok { return; }
    var value := DumpValue(tools, t, entry, reset);
    ok := h.Attempt();
    if !ok || value.None? {
      var debris: Data := *;
      h.node := h.node.(dbs := h.node.dbs[db := debris]);
      return false;
    }
    h.node := h.node.(dbs := h.node.dbs[db := value.value]);
  }

  /** The databases, in order; each is skipped where its conditions do not hold. */
  method RestoreDatabases(h: Host, tools: Tools, m: Manifest, t: Tree) returns (ok: bool)
    modifies h`node, h`faults
    ensures h.faults >= old(h.faults)
    ensures h.node == old(h.node).(dbs := h.node.dbs)
    ensures DbsWithin(Loads(tools, m, t, h.node.files), old(h.node.dbs), h.node.dbs)
    ensures ok ==> AllReadable(Loads(tools, m, t, h.node.files))
    ensures ok ==> h.node.dbs == LoadAll(old(h.node.dbs), Loads(tools, m, t, h.node.files))
    ensures h.faults == old(h.faults) && AllReadable(Loads(tools, m, t, h.node.files)) ==> ok
  {
    hide LoadsKeycloak, LoadsGitea, LoadsHarbor, DumpValue, Loads, Loaded, DbsWithin, AllReadable, LoadAll;
    ghost var loads := Loads(tools, m, t, h.node.files);
    ghost var k := 0;
    DoneLoads(loads, h.node.dbs);
    LoadsShape(tools, m, t, h.node.files);
    ok := true;
    if LoadsKeycloak(m, t) {
      ok := LoadStep(h, tools, t, KEYCLOAK_DUMP, KEYCLOAK_DB, false, loads, k, old(h.node.dbs));
      if !ok { return; }
      k := k + 1;
    }
    if LoadsGitea(m, t, h.node.files) {
      ok := LoadStep(h, tools, t, GITEA_DUMP, GITEA_DB, false, loads, k, old(h.node.dbs));
      if !ok { return; }
      k := k + 1;
    }
    if LoadsHarbor(m, t, h.node.files) {
      ok := LoadStep(h, tools, t, HARBOR_DUMP, HARBOR_DB, true, loads, k, old(h.node.dbs));
      if !ok { return; }
      k := k + 1;
    }
    AllLoaded(loads, k, old(h.node.dbs), h.node.dbs);
  }

  lemma AllLoaded(loads: seq<Load>, k: nat, start: map<string, Data>, now: map<string, Data>)
    requires Loaded(loads, k, start, now) && k == |loads|
    ensures AllReadable(loads) && now == LoadAll(start, loads) && DbsWithin(loads, start, now)
  {
    assert loads[..k] == loads;
  }

  lemma LoadsShape(tools: Tools, m: Manifest, t: Tree, files: Tree)
    ensures var loads := Loads(tools, m, t, files);
      var k := if LoadsKeycloak(m, t) then 1 else 0;
      var g := if LoadsGitea(m, t, files) then 1 else 0;
      var b := if LoadsHarbor(m, t, files) then 1 else 0;
      && |loads| == k + g + b
      && (k == 1 ==> loads[0] == Load(KEYCLOAK_DB, DumpValue(tools, t, KEYCLOAK_DUMP, false)))
      && (g == 1 ==> loads[k] == Load(GITEA_DB, DumpValue(tools, t, GITEA_DUMP, false)))
      && (b == 1 ==> loads[k + g] == Load(HARBOR_DB, DumpValue(tools, t, HARBOR_DUMP, true)))
  {
    hide LoadsKeycloak, LoadsGitea, LoadsHarbor, DumpValue;
  }

  /** The first `k` loads are done. */
  ghost predicate Loaded(loads: seq<Load>, k: nat, start: map<string, Data>, now: map<string, Data>)
  {
    k <= |loads| && AllReadable(loads[..k]) && now == LoadAll(start, loads[..k]) && DbsWithin(loads, start, now)
  }

  lemma DoneLoads(loads: seq<Load>, start: map<string, Data>)
    ensures Loaded(loads, 0, start, start)
    ensures DbsWithin(loads, start, start)
  {
  }

  lemma OthersKept(a: map<string, Data>, b: map<string, Data>, db: string, d: string)
    requires a - {db} == b - {db}
    ensures d != db ==> SameDb(a, b, d)
  {
    if d != db {
      assert d in a <==> d in a - {db};
      assert d in b <==> d in b - {db};
    }
  }

  lemma PutBack(a: map<string, Data>, b: map<string, Data>, db: string)
    requires a - {db} == b - {db} && db in b
    ensures b == a[db := b[db]]
  {
    var next := a[db := b[db]];
    forall d ensures SameDb(b, next, d) {
      OthersKept(a, b, db, d);
    }
    SameEverywhere(b, next);
  }

  method LoadStep(h: Host, tools: Tools, t: Tree, entry: Name, db: string, reset: bool,
                  ghost loads: seq<Load>, ghost k: nat, ghost start: map<string, Data>) returns (ok: bool)
    requires Loaded(loads, k, start, h.node.dbs) && k < |loads|
    requires loads[k] == Load(db, DumpValue(tools, t, entry, reset))
    modifies h`node, h`faults
    ensures h.faults >= old(h.faults)
    ensures h.node == old(h.node).(dbs := h.node.dbs)
    ensures DbsWithin(loads, start, h.node.dbs)
    ensures ok ==> Loaded(loads, k + 1, start, h.node.dbs)
    ensures h.faults == old(h.faults) && AllReadable(loads) ==> ok
  {
    hide DumpValue;
    ghost var before := h.node.dbs;
    ok := RestorePostgres(h, tools, t, entry, db, reset);
    assert IsLoaded(loads, db);
    forall d ensures SameDb(start, h.node.dbs, d) || IsLoaded(loads, d) {
      assert SameDb(start, before, d) || IsLoaded(loads, d);
      OthersKept(before, h.node.dbs, db, d);
    }
    if ok {
      assert loads[..k + 1][..k] == loads[..k];
      PutBack(before, h.node.dbs, db);
    }
  }

  // ------------------------------------------------------------------ OpenBao

  /** The backup's snapshot is not empty and reads. */
  predicate SnapshotUsable(tools: Tools, t: Tree)
  {
    var f := Lookup(t, [OPENBAO_SNAP]);
    f.Some? && f.value.File? && |f.value.data| > 0 && tools.resume(f.value.data).Some?
  }

  /** `restoreOpenBao`: bring it up, get a token, load the snapshot through the
      scratch file, which is removed on every path once it may exist. */
  method RestoreOpenBao(h: Host, tools: Tools, t: Tree) returns (ok: bool)
    modifies h`node, h`faults, h`scratch, h`stuck
    ensures h.faults >= old(h.faults) && h.stuck >= old(h.stuck)
    ensures h.node == old(h.node).(vault := h.node.vault)
    ensures ok ==> VaultValue(tools, t).Some? && h.node.vault == VaultValue(tools, t).value && SnapshotUsable(tools, t)
    ensures h.stuck == old(h.stuck) ==> h.scratch.None? || h.scratch == old(h.scratch)
    ensures h.faults == old(h.faults) && SnapshotUsable(tools, t) ==> ok
  {
    hide Lookup;
    ok := h.Attempt();
    if !ok { return; }
    ok := Phases.RemoveScratch(h);
    if !ok { return; }
    ok := LoadSnapshot(h, tools, t);
    var gone := Phases.RemoveScratch(h);
    ok := ok && gone;
  }

  method LoadSnapshot(h: Host, tools: Tools, t: Tree) returns (ok: bool)
    modifies h`node, h`faults, h`scratch
    ensures h.faults >= old(h.faults)
    ensures h.node == old(h.node).(vault := h.node.vault)
    ensures ok ==> VaultValue(tools, t).Some? && h.node.vault == VaultValue(tools, t).value && SnapshotUsable(tools, t)
    ensures h.faults == old(h.faults) && SnapshotUsable(tools, t) ==> ok
  {
    hide Lookup;
    var ready := h.Attempt();
    var f := Lookup(t, [OPENBAO_SNAP]);
    if !ready || f.None? || !f.value.File? {
      return false;
    }
    h.scratch := Some(f.value.data);
    if |f.value.data| == 0 {
      return false;
    }
    ok := h.Attempt();
    var value := VaultValue(tools, t);
    if !ok || value.None? {
      var debris: Data := *;
      h.node := h.node.(vault := debris);
      return false;
    }
    h.node := h.node.(vault := value.value);
  }
}
