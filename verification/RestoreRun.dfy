/** `Run` of the restore command: mode, lock, timers, the steps, the outcome. */
module RestoreRun {
  import opened Text
  import opened Trees
  import opened Edits
  import opened StackScope
  import opened StackOrder
  import opened Listing
  import opened Manifests
  import opened Capture
  import opened Hosts
  import opened Retention
  import opened RestorePlan
  import opened RestoreSteps

  const MODE_NORMAL := "normal"
  const MODE_RESTORE := "restore"
  const MODE_FAILED := "restore_failed"

  // ------------------------------------------------------------------- timers

  function Among(names: seq<string>, chosen: set<string>): seq<string>
  {
    if names == [] then []
    else Among(names[..|names| - 1], chosen) + if names[|names| - 1] in chosen then [names[|names| - 1]] else []
  }

  function Members(names: seq<string>): set<string> { set t | t in names }

  /** One command for all names, none for none. */
  function Command(names: seq<string>): seq<seq<string>> { if names == [] then [] else [names] }

  /** Only listed timers that are active or enabled. */
  predicate Suspendable(timers: seq<string>, active: set<string>, enabled: set<string>, suspended: seq<string>)
  {
    forall t :: t in suspended ==> t in timers && (t in active || t in enabled)
  }

  /** `SuspendSystemdTimers`: stop the timers that are active or enabled, and remember
      exactly those. A question that fails reads as no; a stop that fails may have
      stopped some of them. */
  method SuspendSystemdTimers(h: Host, timers: seq<string>) returns (ok: bool, active: seq<string>)
    modifies h`timersActive, h`timerStops, h`faults
    ensures h.faults >= old(h.faults)
    ensures Suspendable(timers, old(h.timersActive), h.timersEnabled, active)
    ensures h.timerStops == old(h.timerStops) + Command(active)
    ensures ok ==> h.timersActive == old(h.timersActive) - Members(active)
    ensures !ok ==> old(h.timersActive) - Members(active) <= h.timersActive <= old(h.timersActive)
    ensures h.faults == old(h.faults) ==> ok && active == Among(timers, old(h.timersActive) + h.timersEnabled)
  {
    active := [];
    var k := 0;
    while k < |timers|
      invariant 0 <= k <= |timers|
      invariant h.faults >= old(h.faults) && h.timersActive == old(h.timersActive) && h.timerStops == old(h.timerStops)
      invariant Suspendable(timers, h.timersActive, h.timersEnabled, active)
      invariant h.faults == old(h.faults) ==> active == Among(timers[..k], h.timersActive + h.timersEnabled)
    {
      assert timers[..k + 1][..k] == timers[..k];
      var answered := h.Attempt();
      var wasActive := answered && timers[k] in h.timersActive;
      answered := h.Attempt();
      var wasEnabled := answered && timers[k] in h.timersEnabled;
      if wasActive || wasEnabled {
        active := active + [timers[k]];
      }
      k := k + 1;
    }
    assert timers[..|timers|] == timers;
    if active == [] {
      assert h.timersActive == h.timersActive - Members(active) && h.timerStops == h.timerStops + Command(active);
      return true, active;
    }
    h.timerStops := h.timerStops + [active];
    ok := h.Attempt();
    if ok {
      h.timersActive := h.timersActive - Members(active);
    } else {
      var some: set<string> := *;
      h.timersActive := h.timersActive - Members(active) * some;
    }
  }

  /** The callback: one start command for the remembered timers, if there are any. One
      that fails may have started some of them. */
  method ResumeTimers(h: Host, active: seq<string>) returns (ok: bool)
    modifies h`timersActive, h`timerStarts, h`faults
    ensures h.faults >= old(h.faults)
    ensures h.timerStarts == old(h.timerStarts) + Command(active)
    ensures ok ==> h.timersActive == old(h.timersActive) + Members(active)
    ensures !ok ==> old(h.timersActive) <= h.timersActive <= old(h.timersActive) + Members(active)
    ensures !ok ==> h.faults > old(h.faults)
  {
    if active == [] {
      return true;
    }
    h.timerStarts := h.timerStarts + [active];
    ok := h.Attempt();
    if ok {
      h.timersActive := h.timersActive + Members(active);
    } else {
      var some: set<string> := *;
      h.timersActive := h.timersActive + Members(active) * some;
    }
  }

  lemma {:induction false} AmongMembers(names: seq<string>, chosen: set<string>)
    ensures forall t :: t in Among(names, chosen) <==> t in names && t in chosen
  {
    if names != [] {
      AmongMembers(names[..|names| - 1], chosen);
      assert names == names[..|names| - 1] + [names[|names| - 1]];
    }
  }

  // ------------------------------------------------------------------- stacks

  predicate HasComposeFile(files: Tree, name: string)
  {
    ValidEntry(name) && IsFileAt(files, STACKS + [name, COMPOSE])
  }

  function Backwards(names: seq<string>): (r: seq<string>)
    ensures |r| == |names|
    ensures forall i :: 0 <= i < |r| ==> r[i] == names[|names| - 1 - i]
  {
    seq(|names|, i requires 0 <= i < |names| => names[|names| - 1 - i])
  }

  function WithCompose(files: Tree, names: seq<string>): seq<string>
  {
    if names == [] then []
    else WithCompose(files, names[..|names| - 1]) + if HasComposeFile(files, names[|names| - 1]) then [names[|names| - 1]] else []
  }

  /** The known stacks of a node, for backups that do not name theirs. */
  const LEGACY_STOP: seq<string> := ["traefik", "keycloak", "openbao", "harbor", "gitea"]
  const LEGACY_START: seq<string> := ["openbao", "traefik", "keycloak", "harbor", "gitea"]

  /** Take stacks down, in the order given, skipping those without a compose file. */
  method TakeDown(h: Host, names: seq<string>) returns (ok: bool, ghost stopped: seq<string>)
    modifies h`faults
    ensures h.faults >= old(h.faults)
    ensures ok ==> stopped == WithCompose(h.node.files, names)
    ensures h.faults == old(h.faults) ==> ok
  {
    hide HasComposeFile;
    stopped := [];
    var k := 0;
    while k < |names|
      invariant 0 <= k <= |names|
      invariant h.faults >= old(h.faults)
      invariant stopped == WithCompose(h.node.files, names[..k])
    {
      assert names[..k + 1][..k] == names[..k];
      if HasComposeFile(h.node.files, names[k]) {
        ok := h.Attempt();
        if !ok { return; }
        stopped := stopped + [names[k]];
      }
      k := k + 1;
    }
    assert names[..|names|] == names;
    ok := true;
  }

  /** `stopRestoreStacks`: the start order read backwards. */
  method StopRestoreStacks(h: Host, cfg: Config, m: Manifest) returns (ok: bool, ghost stopped: seq<string>)
    requires m.activeStacks.Some? ==> Canonical(m.activeStacks.value)
    modifies h`faults
    ensures h.faults >= old(h.faults)
    ensures ok && m.activeStacks.Some? ==> exists ordered ::
      && IsStartOrder(m.activeStacks.value, ordered) && stopped == WithCompose(h.node.files, Backwards(ordered))
    ensures h.faults == old(h.faults) ==> ok
  {
    hide HasComposeFile;
    if m.activeStacks.None? {
      var names := LEGACY_STOP + if cfg.switches.cloudflareDisabled then [] else ["cloudflared"];
      ok, stopped := TakeDown(h, names);
      return;
    }
    var ordered := OrderedActiveStacks(m.activeStacks.value);
    assert IsStartOrder(m.activeStacks.value, ordered);
    ok, stopped := TakeDown(h, Backwards(ordered));
  }

  /** The one order in which stacks are started. */
  ghost predicate IsStartOrder(active: seq<string>, ordered: seq<string>)
  {
    && multiset(ordered) == multiset(active)
    && Ranked(PRIORITY, ordered) && Unknown(PRIORITY, ordered) == Unknown(PRIORITY, active)
  }

  /** `startRestoreStacks` */
  method StartRestoreStacks(h: Host, cfg: Config, m: Manifest) returns (ok: bool, ghost started: seq<string>)
    requires m.activeStacks.Some? ==> Canonical(m.activeStacks.value)
    modifies h`faults
    ensures h.faults >= old(h.faults)
    ensures ok && m.activeStacks.Some? ==> IsStartOrder(m.activeStacks.value, started)
    ensures h.faults == old(h.faults) ==> ok
  {
    hide HasComposeFile, Ranked, Unknown;
    started := [];
    var ordered;
    if m.activeStacks.None? {
      ordered := LEGACY_START +
        if cfg.switches.cloudflareDisabled || cfg.switches.mockTunnel then [] else ["cloudflared"];
    } else {
      ordered := OrderedActiveStacks(m.activeStacks.value);
    }
    var k := 0;
    while k < |ordered|
      invariant 0 <= k <= |ordered|
      invariant h.faults >= old(h.faults)
      invariant m.activeStacks.Some? ==> started == ordered[..k]
    {
      if m.activeStacks.Some? || HasComposeFile(h.node.files, ordered[k]) {
        ok := h.Attempt();
        if !ok { return; }
        started := started + [ordered[k]];
      }
      k := k + 1;
    }
    assert ordered[..|ordered|] == ordered;
    ok := true;
  }

  /** Stop order and start order are one order, read in the two directions. */
  lemma StopReversesStart(active: seq<string>, started: seq<string>, ordered: seq<string>)
    requires IsStartOrder(active, started) && IsStartOrder(active, ordered)
    ensures ordered == started && Backwards(Backwards(ordered)) == started
  {
    hide Ranked, Unknown;
    OrderIsUnique(PRIORITY, ordered, started);
    assert Backwards(Backwards(ordered)) == ordered;
  }

  // --------------------------------------------------------------- the source

  /** `Resolve`: the newest listed backup, verified or not, or the one named. */
  method Resolve(h: Host, codec: Codec, cal: Calendar, id: string) returns (found: Option<string>)
    modifies h`faults
    ensures h.faults >= old(h.faults)
    ensures found.Some? ==> Listed(h.root, found.value)
    ensures found.Some? && id != "latest" ==> found.value == id
    ensures h.faults == old(h.faults) && id != "latest" && Listed(h.root, id) ==> found == Some(id)
    ensures found.Some? && id == "latest" ==> forall k :: k in ListedIds(h.root) ==>
      Inspect(codec, cal, k, h.root[k]).createdAt <= Inspect(codec, cal, found.value, h.root[found.value]).createdAt
  {
    hide Inspect, ValidID;
    if id != "latest" && (!ValidID(id) || id !in h.root || !h.root[id].Dir?) {
      return None;
    }
    var ok, backups := List(h, codec, cal);
    if !ok {
      return None;
    }
    if id != "latest" {
      return Some(id);
    }
    if backups == [] {
      return None;
    }
    assert backups[0] in backups;
    forall k | k in ListedIds(h.root)
      ensures Inspect(codec, cal, k, h.root[k]).createdAt <= Inspect(codec, cal, backups[0].id, h.root[backups[0].id]).createdAt
    {
      assert k in Ids(backups);
      var x :| x in backups && x.id == k;
      var i :| 0 <= i < |backups| && backups[i] == x;
    }
    return Some(backups[0].id);
  }

  // ---------------------------------------------------------------- the steps

  /** An accepted manifest names its stacks properly. */
  lemma AcceptedNames(codec: Codec, t: Tree)
    requires Accepted(codec, t)
    ensures var m := ReadManifest(codec, t).value;
      NamedStacks(m) && (m.activeStacks.Some? ==> Canonical(m.activeStacks.value))
  {
    hide Lookup, GoodOffline, GoodConsistency, GoodArtifacts, IsListOf, Listable;
  }

  /** The backup `t` can be restored on a node with these files: whatever fails then
      is a failing step. */
  ghost predicate Restorable(cfg: Config, tools: Tools, m: Manifest, t: Tree, files: Tree)
    requires NamedStacks(m)
  {
    && RevisionThere(m, t) && DirectoriesReady(cfg, m, t, files)
    && AllReadable(Loads(tools, m, t, Apply(files, Plan(cfg, m, t))))
    && (LoadsVault(m, t) ==> SnapshotUsable(tools, t))
  }

  /** Everything between the lock and the final mode, for the backup `t`. */
  method Steps(h: Host, cfg: Config, tools: Tools, m: Manifest, t: Tree) returns (ok: bool)
    requires GoodLayout(cfg) && NamedStacks(m) && h.holding
    requires m.activeStacks.Some? ==> Canonical(m.activeStacks.value)
    modifies h`node, h`faults, h`scratch, h`stuck
    ensures h.faults >= old(h.faults) && h.stuck >= old(h.stuck)
    ensures AllApart(Plan(cfg, m, t))
    ensures Within(cfg, tools, m, t, old(h.node), h.node)
    ensures ok ==> h.node == Goal(cfg, tools, m, t, old(h.node))
    ensures ok ==> Applicable(old(h.node.files), Plan(cfg, m, t)) && AllLoadable(tools, m, t, h.node.files)
    ensures ok && HasGiteaStack(m, t) ==> GiteaSourceOf(Sub(t, [GITEA_STACK])).Some?
    ensures ok && HasHarborData(m, t) ==> PasswordFileFound(h.node.files)
    ensures h.stuck == old(h.stuck) ==> h.scratch.None? || h.scratch == old(h.scratch)
    ensures h.faults == old(h.faults) && Restorable(cfg, tools, m, t, old(h.node.files)) ==> ok
    ensures ok ==> Restorable(cfg, tools, m, t, old(h.node.files))
  {
    hide Lookup, CanPut, Reached, Apply, Includes, GiteaSourceOf, Plan, Loads, LoadAll, LoadsVault, VaultValue;
    hide RevisionThere, SnapshotUsable, DefinitionsThere, GiteaThere;
    hide HasGiteaStack, HasHarborData, PasswordFileFound, GoodLayout, AllApart, Sub;
    PlanApart(cfg, m, t);
    ghost var start, plan := h.node, Plan(cfg, m, t);
    NothingYet(cfg, tools, m, t, start);
    ok := CheckOut(h, m, t);
    if !ok { return; }
    ghost var stopped;
    ok, stopped := StopRestoreStacks(h, cfg, m);
    if !ok { return; }
    // Ownership and modes of OpenBao's data directory.
    ok := h.Attempt();
    if !ok { return; }
    ok := RestoreDirectories(h, cfg, m, t);
    OnlyFiles(cfg, tools, m, t, start, h.node);
    if !ok { return; }
    assert plan[..|plan|] == plan;
    ok := RestoreDatabases(h, tools, m, t);
    if !ok { return; }
    if LoadsVault(m, t) {
      ok := RestoreOpenBao(h, tools, t);
      if !ok { return; }
    }
    ghost var started;
    ok, started := StartRestoreStacks(h, cfg, m);
    if !ok { return; }
    // The Keycloak administrator, Harbor's write mode, unsealing and validation.
    ok := h.Attempt();
    WasRestorable(cfg, tools, m, t, start.files, h.node.files);
  }

  /** Everything a completed restore has come across. */
  lemma WasRestorable(cfg: Config, tools: Tools, m: Manifest, t: Tree, start: Tree, end: Tree)
    requires NamedStacks(m) && RevisionThere(m, t) && Applicable(start, Plan(cfg, m, t)) && end == Apply(start, Plan(cfg, m, t))
    requires DefinitionsThere(m, t) && (HasGiteaStack(m, t) ==> GiteaSourceOf(Sub(t, [GITEA_STACK])).Some?)
    requires HasHarborData(m, t) ==> PasswordFileFound(end)
    requires AllReadable(Loads(tools, m, t, end)) && (LoadsVault(m, t) ==> SnapshotUsable(tools, t))
    ensures Restorable(cfg, tools, m, t, start)
  {
    hide Plan, Apply, Loads, Lookup;
  }

  predicate RevisionThere(m: Manifest, t: Tree)
  {
    m.repositoryBundle ==> m.cliRevision != "" && IsFileAt(t, [BUNDLE])
  }

  /** A backup with a repository bundle first puts the repository at its revision. */
  method CheckOut(h: Host, m: Manifest, t: Tree) returns (ok: bool)
    modifies h`faults
    ensures h.faults >= old(h.faults)
    ensures ok ==> RevisionThere(m, t)
    ensures h.faults == old(h.faults) && RevisionThere(m, t) ==> ok
  {
    ok := true;
    if m.repositoryBundle {
      if m.cliRevision == "" || !IsFileAt(t, [BUNDLE]) {
        return false;
      }
      ok := h.Attempt();
    }
  }

  lemma NothingYet(cfg: Config, tools: Tools, m: Manifest, t: Tree, start: NodeState)
    requires NamedStacks(m)
    ensures Within(cfg, tools, m, t, start, start)
  {
    hide Plan, Loads, Apply;
    ReachedAlready(Plan(cfg, m, t), start.files);
  }

  lemma OnlyFiles(cfg: Config, tools: Tools, m: Manifest, t: Tree, start: NodeState, now: NodeState)
    requires NamedStacks(m) && now == start.(files := now.files) && Reached(Plan(cfg, m, t), start.files, now.files)
    ensures Within(cfg, tools, m, t, start, now)
  {
    hide Plan, Loads, Apply, Reached;
  }

  // ---------------------------------------------------------------- the outcome

  /** What a run chose to restore, the timers it had suspended, and whether these were
      all started again. */
  datatype Choice = Choice(id: string, suspended: seq<string>, resumed: bool)

  /** What a run does to the timers, whatever fails: one list is stopped, after success
      that same list is started, and no other timer is touched. */
  ghost predicate TimersHandled(timers: seq<string>, enabled: set<string>, before: Switchboard, after: Switchboard,
                                ok: bool, c: Choice)
  {
    && Suspendable(timers, before.active, enabled, c.suspended)
    && after.stops == before.stops + Command(c.suspended)
    && after.starts == before.starts + (if ok then Command(c.suspended) else [])
    && before.active - Members(c.suspended) <= after.active
    && after.active <= (if ok then before.active + Members(c.suspended) else before.active)
    && (ok && c.resumed ==> after.active == before.active - Members(c.suspended) + Members(c.suspended))
  }

  /** The started timers and the commands issued for timers so far. */
  datatype Switchboard = Switchboard(active: set<string>, stops: seq<seq<string>>, starts: seq<seq<string>>)

  ghost function Timers(h: Host): Switchboard
    reads h
  {
    Switchboard(h.timersActive, h.timerStops, h.timerStarts)
  }

  /** A run ends in one of two ways: everything is as the backup says, mode `normal`
      and the timers back; or mode `restore_failed`, the timers still off, and no
      change outside the plan. A backup that was never found or does not verify
      changes nothing. */
  ghost predicate Restored(cfg: Config, tools: Tools, codec: Codec, root: map<string, Tree>, id: string,
                           before: NodeState, after: NodeState)
  {
    id in root && Accepted(codec, root[id]) &&
    var t := root[id];
    var m := ReadManifest(codec, t).value;
    && NamedStacks(m) && AllApart(Plan(cfg, m, t))
    && after == Goal(cfg, tools, m, t, before)
    && Applicable(before.files, Plan(cfg, m, t)) && AllLoadable(tools, m, t, after.files)
    && (HasGiteaStack(m, t) ==> GiteaSourceOf(Sub(t, [GITEA_STACK])).Some?)
  }

  ghost predicate Stopped(cfg: Config, tools: Tools, codec: Codec, root: map<string, Tree>, id: string,
                          before: NodeState, after: NodeState)
  {
    after == before ||
    (id in root && Accepted(codec, root[id]) &&
     var t := root[id];
     var m := ReadManifest(codec, t).value;
     NamedStacks(m) && AllApart(Plan(cfg, m, t)) && Within(cfg, tools, m, t, before, after))
  }

  /** The timers a successful run leaves, when their start worked: no active one is lost,
      and one more runs if and only if a suspended one had been enabled without being
      active. Without a failing question that is any such timer on the list. */
  lemma {:induction false} TimersBackExactly(timers: seq<string>, enabled: set<string>, before: Switchboard,
                                             after: Switchboard, c: Choice)
    requires TimersHandled(timers, enabled, before, after, true, c) && c.resumed
    ensures before.active <= after.active <= before.active + Members(timers) * enabled
    ensures after.active == before.active <==> Members(c.suspended) <= before.active
    ensures c.suspended == Among(timers, before.active + enabled) ==>
      (after.active == before.active <==> Members(timers) * enabled <= before.active)
  {
    AmongMembers(timers, before.active + enabled);
    assert after.active == before.active + Members(c.suspended);
    if c.suspended == Among(timers, before.active + enabled) && after.active == before.active {
      forall t | t in Members(timers) * enabled ensures t in before.active {
        assert t in c.suspended;
      }
    }
  }

  /** `Run`. */
  method Run(h: Host, cfg: Config, tools: Tools, codec: Codec, cal: Calendar, id: string, timers: seq<string>)
    returns (ok: bool, ghost c: Choice)
    requires GoodLayout(cfg) && !h.holding
    modifies h`mode, h`modeFaults, h`holding, h`node, h`faults, h`scratch, h`stuck, h`timersActive, h`timerStops, h`timerStarts
    ensures !h.holding && h.faults >= old(h.faults)
    ensures old(h.mode) != Some(MODE_RESTORE) ==> !ok && h.mode == old(h.mode) && h.node == old(h.node) && Timers(h) == old(Timers(h))
    ensures ok ==> h.mode == Some(MODE_NORMAL) && Restored(cfg, tools, codec, h.root, c.id, old(h.node), h.node)
    ensures TimersHandled(timers, h.timersEnabled, old(Timers(h)), Timers(h), ok, c)
    ensures ok && !c.resumed ==> h.faults > old(h.faults)
    ensures !ok && h.node != old(h.node) ==> h.timersActive == old(h.timersActive) - Members(c.suspended)
    ensures ok && h.faults == old(h.faults) ==> c.suspended == Among(timers, old(h.timersActive) + h.timersEnabled)
    ensures !ok ==> Stopped(cfg, tools, codec, h.root, c.id, old(h.node), h.node)
    ensures !ok && old(h.mode) == Some(MODE_RESTORE) ==>
      h.mode == Some(MODE_FAILED) || (h.mode == Some(MODE_RESTORE) && h.modeFaults > old(h.modeFaults))
    ensures old(h.mode) == Some(MODE_RESTORE) && CanRestore(cfg, tools, codec, h.root, id, old(h.node.files)) ==>
      ok || h.faults > old(h.faults)
    ensures ok ==> CanRestore(cfg, tools, codec, h.root, c.id, old(h.node.files))
  {
    hide Restored, Stopped, CanRestore;
    c := Choice(id, [], false);
    NotStarted(cfg, tools, codec, h.root, id, h.node);
    if h.mode != Some(MODE_RESTORE) {
      return false, c;
    }
    ok := h.Attempt();
    if !ok {
      var noted := h.SetMode(MODE_FAILED);
      return;
    }
    h.holding := true;
    ok, c := Locked(h, cfg, tools, codec, cal, id, timers);
    h.holding := false;
  }

  /** Under the lock: timers off, restore, timers on, or the mode that says it failed. */
  method Locked(h: Host, cfg: Config, tools: Tools, codec: Codec, cal: Calendar, id: string, timers: seq<string>)
    returns (ok: bool, ghost c: Choice)
    requires GoodLayout(cfg) && h.holding && h.mode == Some(MODE_RESTORE)
    modifies h`mode, h`modeFaults, h`node, h`faults, h`scratch, h`stuck, h`timersActive, h`timerStops, h`timerStarts
    ensures h.faults >= old(h.faults) && h.modeFaults >= old(h.modeFaults)
    ensures ok ==> h.mode == Some(MODE_NORMAL) && Restored(cfg, tools, codec, h.root, c.id, old(h.node), h.node)
    ensures ok ==> CanRestore(cfg, tools, codec, h.root, c.id, old(h.node.files))
    ensures TimersHandled(timers, h.timersEnabled, old(Timers(h)), Timers(h), ok, c)
    ensures ok && !c.resumed ==> h.faults > old(h.faults)
    ensures !ok && h.node != old(h.node) ==> h.timersActive == old(h.timersActive) - Members(c.suspended)
    ensures ok && h.faults == old(h.faults) ==> c.suspended == Among(timers, old(h.timersActive) + h.timersEnabled)
    ensures !ok ==> Stopped(cfg, tools, codec, h.root, c.id, old(h.node), h.node)
    ensures !ok ==> h.mode == Some(MODE_FAILED) || (h.mode == Some(MODE_RESTORE) && h.modeFaults > old(h.modeFaults))
    ensures h.faults == old(h.faults) && CanRestore(cfg, tools, codec, h.root, id, old(h.node.files)) ==> ok
  {
    hide Restored, Stopped, CanRestore, Among, Suspendable, GoodLayout;
    NotStarted(cfg, tools, codec, h.root, id, h.node);
    var suspended;
    ok, suspended := SuspendSystemdTimers(h, timers);
    c := Choice(id, suspended, false);
    if !ok {
      var noted := h.SetMode(MODE_FAILED);
      return;
    }
    ghost var chosen;
    ok, chosen := RestoreChosen(h, cfg, tools, codec, cal, id);
    c := Choice(chosen, suspended, false);
    if !ok {
      var noted := h.SetMode(MODE_FAILED);
      return;
    }
    ok := h.SetMode(MODE_NORMAL);
    if ok {
      var resumed := ResumeTimers(h, suspended);
      c := Choice(chosen, suspended, resumed);
    } else {
      RestoredIsStopped(cfg, tools, codec, h.root, chosen, old(h.node), h.node);
    }
  }

  lemma NotStarted(cfg: Config, tools: Tools, codec: Codec, root: map<string, Tree>, id: string, node: NodeState)
    ensures Stopped(cfg, tools, codec, root, id, node, node)
  {
  }

  /** A completed change followed by a failing mode write is also within the plan. */
  lemma RestoredIsStopped(cfg: Config, tools: Tools, codec: Codec, root: map<string, Tree>, id: string,
                          before: NodeState, after: NodeState)
    requires Restored(cfg, tools, codec, root, id, before, after)
    ensures Stopped(cfg, tools, codec, root, id, before, after)
  {
    hide Plan, Loads, Sound;
    var t := root[id];
    var m := ReadManifest(codec, t).value;
    GoalWithin(cfg, tools, m, t, before);
  }

  lemma GoalWithin(cfg: Config, tools: Tools, m: Manifest, t: Tree, before: NodeState)
    requires NamedStacks(m) && AllApart(Plan(cfg, m, t)) && Applicable(before.files, Plan(cfg, m, t))
    ensures Within(cfg, tools, m, t, before, Goal(cfg, tools, m, t, before))
  {
    hide Plan, Loads, Outline, CanPut, Lookup;
    var plan := Plan(cfg, m, t);
    var files := Apply(before.files, plan);
    AppliedReached(plan, before.files, |plan|);
    assert plan[..|plan|] == plan;
    var loads := Loads(tools, m, t, files);
    forall db ensures SameDb(before.dbs, LoadAll(before.dbs, loads), db) || IsLoaded(loads, db) {
      if !IsLoaded(loads, db) {
        LoadAllElsewhere(before.dbs, loads, db);
      }
    }
  }

  lemma {:induction false} AppliedReached(plan: seq<Edit>, start: Tree, k: nat)
    requires AllApart(plan) && Applicable(start, plan) && k <= |plan|
    ensures AtStep(plan, k, start, Apply(start, plan[..k]))
  {
    hide Reached, CanPut;
    if k == 0 {
      AtBeginning(plan, start);
    } else {
      AppliedReached(plan, start, k - 1);
      var done := plan[..k - 1];
      assert plan[..k][..k - 1] == done;
      forall i | 0 <= i < |done| ensures Apart(done[i].path, plan[k - 1].path) { }
      ApplyKeepsRoom(start, done, plan[k - 1].path);
      NextStep(plan, k - 1, start, Apply(start, done));
    }
  }

  /** The named backup is there, verifies, and can be restored on these files. */
  ghost predicate CanRestore(cfg: Config, tools: Tools, codec: Codec, root: map<string, Tree>, id: string, files: Tree)
  {
    id != "latest" && Listed(root, id) && Accepted(codec, root[id]) &&
    var m := ReadManifest(codec, root[id]).value;
    NamedStacks(m) && Restorable(cfg, tools, m, root[id], files)
  }

  lemma NotLatest()
    ensures !ValidID("latest")
  {
  }

  /** Find the backup, verify it, restore it. */
  method RestoreChosen(h: Host, cfg: Config, tools: Tools, codec: Codec, cal: Calendar, id: string) returns (ok: bool,
                       ghost chosen: string)
    requires GoodLayout(cfg) && h.holding
    modifies h`node, h`faults, h`scratch, h`stuck
    ensures h.faults >= old(h.faults)
    ensures ok ==> Restored(cfg, tools, codec, h.root, chosen, old(h.node), h.node)
    ensures !ok ==> Stopped(cfg, tools, codec, h.root, chosen, old(h.node), h.node)
    ensures h.faults == old(h.faults) && CanRestore(cfg, tools, codec, h.root, id, old(h.node.files)) ==> ok
    ensures ok ==> CanRestore(cfg, tools, codec, h.root, chosen, old(h.node.files))
  {
    hide Restorable, ValidID;
    hide Sound, Plan, Goal, Within, AllApart, Applicable, AllLoadable, HasGiteaStack, HasHarborData, PasswordFileFound, GoodLayout, Sub;
    chosen := id;
    var found := Resolve(h, codec, cal, id);
    if found.None? {
      return false, chosen;
    }
    chosen := found.value;
    var t := h.root[found.value];
    var manifest := Verify(codec, t);
    if manifest.None? {
      return false, chosen;
    }
    AcceptedNames(codec, t);
    assert found.value != "latest" by { NotLatest(); }
    ok := Steps(h, cfg, tools, manifest.value, t);
  }

  /** Trying again: if a run on a backup stopped, and a later run on it completes,
      the node ends as one uninterrupted run would have left it. */
  lemma RetryAfterStop(cfg: Config, tools: Tools, codec: Codec, root: map<string, Tree>, id: string,
                       start: NodeState, stopped: NodeState, done: NodeState, once: NodeState)
    requires Stopped(cfg, tools, codec, root, id, start, stopped)
    requires Restored(cfg, tools, codec, root, id, stopped, done)
    requires Restored(cfg, tools, codec, root, id, start, once)
    ensures done == once
  {
    hide Plan, Goal, Within, Sound, AllLoadable, HasGiteaStack, Sub, GiteaSourceOf;
    if stopped != start {
      var t := root[id];
      var m := ReadManifest(codec, t).value;
      Uninterrupted(cfg, tools, m, t, start);
      RetryConverges(cfg, tools, m, t, start, stopped);
    }
  }

  lemma Uninterrupted(cfg: Config, tools: Tools, m: Manifest, t: Tree, start: NodeState)
    requires NamedStacks(m)
    ensures Goal(cfg, tools, m, t, start).files == Apply(start.files, Plan(cfg, m, t))
  {
  }
}
