/** `runGiteaProcessRestore`: mode, timers and lock around a restore of Gitea alone. */
module GiteaRestore {
  import opened Text
  import opened Trees
  import opened Hosts
  import opened RestoreRun

  /** How the command ends. */
  datatype Ending =
    | NotEntered    // before the mode was set to restore
    | Failed        // an error after that, up to and including the convergence
    | TimersFailed  // everything done, the timers could not be started
    | Completed

  const TIMERS: seq<string> := ["admin-converge.timer", "admin-backup.timer", "admin-gitea-process-backup.timer"]

  /** Only what belongs to Gitea differs: its database and its files. */
  ghost predicate GiteaOnly(cfg: Config, a: NodeState, b: NodeState)
  {
    && b.vault == a.vault
    && b.dbs.Keys == a.dbs.Keys && (forall n :: n in a.dbs && n != GITEA_DB ==> b.dbs[n] == a.dbs[n])
    && (forall q :: Apart(cfg.giteaStack, q) && Apart(GITEA_FILES, q) ==> Lookup(b.files, q) == Lookup(a.files, q))
  }

  lemma GiteaOnlyReflexive(cfg: Config, a: NodeState)
    ensures GiteaOnly(cfg, a, a)
  {
  }

  lemma GiteaOnlyTransitive(cfg: Config, a: NodeState, b: NodeState, c: NodeState)
    requires GiteaOnly(cfg, a, b) && GiteaOnly(cfg, b, c)
    ensures GiteaOnly(cfg, a, c)
  {
  }

  /** Whatever the command leaves of Gitea's directory. */
  method ReplaceFiles(h: Host, cfg: Config)
    modifies h`node
    ensures GiteaOnly(cfg, old(h.node), h.node)
  {
    var t: Tree := *;
    if CanPut(h.node.files, cfg.giteaStack) {
      ghost var before := h.node.files;
      forall q | Apart(cfg.giteaStack, q) ensures Lookup(PutAt(before, cfg.giteaStack, t), q) == Lookup(before, q) {
        PutElsewhere(before, cfg.giteaStack, t, q);
      }
      h.node := h.node.(files := PutAt(h.node.files, cfg.giteaStack, t));
    }
  }

  /** The commands that replace Gitea's files and database, then its validation. */
  method ReplaceGitea(h: Host, cfg: Config) returns (ok: bool)
    requires GoodLayout(cfg) && h.holding
    modifies h`node, h`faults
    ensures h.faults >= old(h.faults)
    ensures GiteaOnly(cfg, old(h.node), h.node)
    ensures h.faults == old(h.faults) ==> ok
  {
    hide GiteaOnly;
    GiteaOnlyReflexive(cfg, h.node);
    ok := h.Attempt();
    if !ok { return; }
    ghost var start := h.node;
    ReplaceFiles(h, cfg);
    ghost var replaced := h.node;
    ok := h.Attempt();
    if !ok { return; }
    var db: Data := *;
    if GITEA_DB in h.node.dbs {
      h.node := h.node.(dbs := h.node.dbs[GITEA_DB := db]);
      OnlyItsDatabase(cfg, replaced, h.node, db);
    }
    GiteaOnlyTransitive(cfg, start, replaced, h.node);
    ok := h.Attempt();
  }

  lemma OnlyItsDatabase(cfg: Config, a: NodeState, b: NodeState, db: Data)
    requires GITEA_DB in a.dbs && b == a.(dbs := a.dbs[GITEA_DB := db])
    ensures GiteaOnly(cfg, a, b)
  {
    hide Lookup, PlainDirAt;
  }

  /** After the mode was set to restore: the result before the deferred mode write.
      `settled` tells whether everything up to the timers was done. */
  method Entered(h: Host, cfg: Config, converges: bool) returns (settled: bool, ok: bool, suspended: seq<string>)
    requires GoodLayout(cfg) && h.holding && h.mode == Some(MODE_RESTORE)
    modifies h`node, h`faults, h`mode, h`modeFaults, h`timersActive, h`timerStops, h`timerStarts
    ensures h.faults >= old(h.faults) && h.modeFaults >= old(h.modeFaults)
    ensures GiteaOnly(cfg, old(h.node), h.node)
    ensures ok ==> settled
    ensures settled ==> h.mode == Some(MODE_NORMAL)
    ensures TimersHandled(TIMERS, h.timersEnabled, old(Timers(h)), Timers(h), settled, Choice("", suspended, ok))
    ensures !settled && h.node != old(h.node) ==> h.timersActive == old(h.timersActive) - Members(suspended)
    ensures h.faults == old(h.faults) ==> ok && suspended == Among(TIMERS, old(h.timersActive) + h.timersEnabled)
  {
    hide GiteaOnly, Among, Suspendable;
    GiteaOnlyReflexive(cfg, h.node);
    settled := false;
    ok, suspended := SuspendSystemdTimers(h, TIMERS);
    if !ok { return; }
    ok := ReplaceGitea(h, cfg);
    if !ok { return; }
    ok := h.SetMode(MODE_NORMAL);
    if !ok { return; }
    if converges {
      ok := h.Attempt();
      if !ok { return; }
    }
    settled := true;
    ok := ResumeTimers(h, suspended);
  }

  /** The whole command. Once the mode was set to restore, every error ends in
      `restore_failed` with the timers off, also a convergence that fails after
      `normal` had been set; only failing to start the timers leaves `normal`. */
  method RunGiteaProcessRestore(h: Host, cfg: Config, converges: bool) returns (e: Ending, ghost suspended: seq<string>)
    requires GoodLayout(cfg) && !h.holding
    modifies h`node, h`faults, h`mode, h`modeFaults, h`timersActive, h`timerStops, h`timerStarts, h`holding
    ensures !h.holding
    ensures GiteaOnly(cfg, old(h.node), h.node)
    ensures e.NotEntered? ==> h.mode == old(h.mode) && h.node == old(h.node) && Timers(h) == old(Timers(h))
    ensures e.Failed? ==> h.mode == Some(MODE_FAILED) || h.modeFaults > old(h.modeFaults)
    ensures e.Failed? && h.node != old(h.node) ==> h.timersActive == old(h.timersActive) - Members(suspended)
    ensures e.TimersFailed? || e.Completed? ==> h.mode == Some(MODE_NORMAL)
    ensures TimersHandled(TIMERS, h.timersEnabled, old(Timers(h)), Timers(h), e.TimersFailed? || e.Completed?,
      Choice("", suspended, e.Completed?))
    ensures e.TimersFailed? ==> h.faults > old(h.faults)
    ensures h.faults == old(h.faults) ==> e.Completed? && suspended == Among(TIMERS, old(h.timersActive) + h.timersEnabled)
  {
    hide GiteaOnly, Among, Suspendable;
    GiteaOnlyReflexive(cfg, h.node);
    suspended := [];
    NoneSuspended(TIMERS, h.timersActive, h.timersEnabled);
    var locked := h.Attempt();
    if !locked {
      return NotEntered, suspended;
    }
    h.holding := true;
    var inputs := h.Attempt();
    if !inputs {
      h.holding := false;
      return NotEntered, suspended;
    }
    var marked := h.SetMode(MODE_RESTORE);
    if !marked {
      h.holding := false;
      return NotEntered, suspended;
    }
    var settled, ok, active := Entered(h, cfg, converges);
    suspended := active;
    if !settled {
      var noted := h.SetMode(MODE_FAILED);
      e := Failed;
    } else {
      e := if ok then Completed else TimersFailed;
    }
    h.holding := false;
  }

  lemma NoneSuspended(timers: seq<string>, active: set<string>, enabled: set<string>)
    ensures Suspendable(timers, active, enabled, [])
  {
  }
}
