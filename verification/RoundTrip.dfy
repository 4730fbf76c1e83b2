/** A backup of one node restored on another: every captured component comes back,
    everything else stays. */
module RoundTrip {
  import opened Text
  import opened Trees
  import opened Edits
  import opened StackScope
  import opened Listing
  import opened Manifests
  import opened Capture
  import opened Delivery
  import opened Hosts
  import opened GiteaBackup
  import opened Phases
  import opened CaptureRun
  import opened Publication
  import opened Retention
  import opened RestorePlan
  import opened RestoreSteps
  import opened BackupRun
  import RestoreRun
  import Repositories

  /** Whether the captured files are those of one state: the service could not write, or
      they come from a snapshot. */
  predicate GiteaKnown(cuts: Cuts, whole: Whole) { whole.gitea || cuts.giteaSnap }

  predicate HarborKnown(cuts: Cuts, whole: Whole) { whole.harbor || cuts.harborSnap }

  // ---------------------------------------------------------------- one edit

  /** After a completed restore every place of the plan holds its new subtree. */
  lemma PlaceHolds(files: Tree, plan: seq<Edit>, i: nat)
    requires AllApart(plan) && Applicable(files, plan) && i < |plan|
    ensures Lookup(Apply(files, plan), plan[i].path) == Some(plan[i].sub)
  {
    ApplyLookup(files, plan, i);
  }

  /** The plan in terms of its three parts. */
  lemma PlanAt(cfg: Config, m: Manifest, t: Tree, i: nat)
    requires NamedStacks(m)
    ensures i < |DefinitionEdits(m, t)| ==> i < |Plan(cfg, m, t)| && Plan(cfg, m, t)[i] == DefinitionEdits(m, t)[i]
    ensures i < |GiteaEdits(cfg, m, t)| ==>
      |DefinitionEdits(m, t)| + i < |Plan(cfg, m, t)| && Plan(cfg, m, t)[|DefinitionEdits(m, t)| + i] == GiteaEdits(cfg, m, t)[i]
  {
    hide DefinitionEdits, GiteaEdits, HarborEdits, HasHarborData;
  }

  lemma PlanAtHarbor(cfg: Config, m: Manifest, t: Tree, i: nat) returns (k: nat)
    requires NamedStacks(m) && HasHarborData(m, t)
    requires forall j :: 0 <= j < |HARBOR_ORDER| ==> HARBOR_ORDER[j] != []
    requires i < |HarborEdits(t, HARBOR_ORDER)|
    ensures k < |Plan(cfg, m, t)| && Plan(cfg, m, t)[k] == HarborEdits(t, HARBOR_ORDER)[i]
  {
    hide DefinitionEdits, GiteaEdits, HarborEdits, HasHarborData;
    k := |DefinitionEdits(m, t)| + |GiteaEdits(cfg, m, t)| + i;
  }

  // -------------------------------------------------------------- definitions

  lemma DefinitionBack(job: Job, cuts: Cuts, whole: Whole, archives: seq<ImageArchive>, m: Manifest, t: Tree, cfg: Config,
                       files: Tree, i: nat)
    requires HoldsCapture(job, cuts, whole, archives, t) && Declares(job, m)
    requires NamedStacks(m) && AllApart(Plan(cfg, m, t)) && Applicable(files, Plan(cfg, m, t)) && i < |job.active|
    ensures Lookup(cuts.stacks.files, STACKS + [job.active[i]]).Some?
    ensures Lookup(Apply(files, Plan(cfg, m, t)), STACKS + [job.active[i]]) ==
      Some(Shown(Lookup(cuts.stacks.files, STACKS + [job.active[i]]).value, job.images, archives))
  {
    hide Lookup, Plan, Apply, AllApart, Applicable, ServicesCaptured, Shown;
    ValidNameIsEntry(job.active[i]);
    var name: Name := job.active[i];
    assert DefinitionKept(cuts.stacks.files, name, job.images, archives, t.kids[DEFINITIONS]);
    OneLevel(t, DEFINITIONS);
    LookupAppend(t, [DEFINITIONS], [name]);
    assert [DEFINITIONS] + [name] == [DEFINITIONS, name];
    assert DefinitionEdits(m, t)[i] == Edit(STACKS + [name], Sub(t, [DEFINITIONS, name]));
    PlanAt(cfg, m, t, i);
    PlaceHolds(files, Plan(cfg, m, t), i);
  }

  // --------------------------------------------------------------- Gitea files

  /** Where Gitea's own data lies on a node that keeps it in the stack directory. */
  function GiteaPath(cfg: Config): Path { cfg.giteaStack + [GITEA_ENTRY] }

  lemma CapturedKids(snapshot: bool, t: Tree)
    requires t.Dir?
    ensures var c := Captured(snapshot, t);
      c.Dir? && c.kids.Keys == t.kids.Keys &&
      forall n :: n in t.kids ==> c.kids[n] == Captured(snapshot, t.kids[n]) && (c.kids[n].Dir? <==> t.kids[n].Dir?)
  {
  }

  /** Gitea's stack directory, if there is one, is in one of the two layouts. */
  ghost predicate LayoutKnown(cfg: Config, files: Tree)
  {
    IsDirAt(files, cfg.giteaStack) ==> GiteaSourceOf(Lookup(files, cfg.giteaStack).value).Some?
  }

  lemma SameParts(snapshot: bool, t: Tree)
    ensures HoldsBoth(Captured(snapshot, t)) <==> HoldsBoth(t)
  {
    if t.Dir? {
      CapturedKids(snapshot, t);
    }
  }

  lemma SameLayout(snapshot: bool, t: Tree)
    requires t.Dir?
    ensures GiteaSourceOf(Captured(snapshot, t)) ==
      if GiteaSourceOf(t).Some? then Some(Captured(snapshot, GiteaSourceOf(t).value)) else None
  {
    hide Captured, HoldsBoth;
    var c := Captured(snapshot, t);
    CapturedKids(snapshot, t);
    SameParts(snapshot, t);
    forall n | n in t.kids ensures HoldsBoth(c.kids[n]) <==> HoldsBoth(t.kids[n]) {
      SameParts(snapshot, t.kids[n]);
    }
    assert forall n :: Candidate(c, n) <==> Candidate(t, n);
    assert forall n :: OnlyCandidate(c, n) <==> OnlyCandidate(t, n);
  }

  /** Gitea's files, kept in the stack directory: whichever of the two layouts it has. */
  lemma GiteaStackBack(job: Job, cuts: Cuts, whole: Whole, archives: seq<ImageArchive>, m: Manifest, t: Tree, cfg: Config, files: Tree)
    requires HoldsCapture(job, cuts, whole, archives, t) && Declares(job, m) && GITEA in job.active
    requires StrictlySorted(job.active)
    requires GiteaKnown(cuts, whole) && IsDirAt(cuts.gitea.files, job.cfg.giteaStack)
    requires GiteaSourceOf(Lookup(cuts.gitea.files, job.cfg.giteaStack).value).Some?
    requires NamedStacks(m) && AllApart(Plan(cfg, m, t)) && Applicable(files, Plan(cfg, m, t))
    ensures var back := Lookup(Apply(files, Plan(cfg, m, t)), GiteaPath(cfg));
      var was := GiteaSourceOf(Lookup(cuts.gitea.files, job.cfg.giteaStack).value).value;
      back.Some? && Content(back.value) == Content(was.kids[GITEA_ENTRY])
  {
    hide Plan, Apply, AllApart, Applicable, Content, Masked, DefinitionEdits, GiteaSourceOf;
    ContainsIsMembership(job.active, GITEA);
    var stack := Lookup(cuts.gitea.files, job.cfg.giteaStack).value;
    var was := GiteaSourceOf(stack).value;
    OneLevel(t, GITEA_STACK);
    CapturedKids(cuts.giteaSnap, stack);
    SameLayout(cuts.giteaSnap, stack);
    CapturedKids(cuts.giteaSnap, was);
    assert GiteaEdits(cfg, m, t) == [Edit(GiteaPath(cfg), Captured(cuts.giteaSnap, was.kids[GITEA_ENTRY]))];
    CapturedKeepsContent(cuts.giteaSnap, was.kids[GITEA_ENTRY]);
    PlanAt(cfg, m, t, 0);
    PlaceHolds(files, Plan(cfg, m, t), |DefinitionEdits(m, t)|);
  }

  /** Gitea's files, kept in the older data directory. */
  lemma GiteaDataBack(job: Job, cuts: Cuts, whole: Whole, archives: seq<ImageArchive>, m: Manifest, t: Tree, cfg: Config, files: Tree)
    requires HoldsCapture(job, cuts, whole, archives, t) && Declares(job, m) && GITEA in job.active
    requires StrictlySorted(job.active)
    requires GiteaKnown(cuts, whole) && !IsDirAt(cuts.gitea.files, job.cfg.giteaStack)
    requires NamedStacks(m) && AllApart(Plan(cfg, m, t)) && Applicable(files, Plan(cfg, m, t))
    ensures Lookup(cuts.gitea.files, GITEA_FILES).Some?
    ensures var back := Lookup(Apply(files, Plan(cfg, m, t)), GITEA_FILES);
      back.Some? && Content(back.value) == Content(Lookup(cuts.gitea.files, GITEA_FILES).value)
  {
    hide Plan, Apply, AllApart, Applicable, Content, Masked, DefinitionEdits;
    ContainsIsMembership(job.active, GITEA);
    OneLevel(t, GITEA_STACK);
    OneLevel(t, GITEA_DATA);
    var data := Lookup(cuts.gitea.files, GITEA_FILES).value;
    CapturedKids(cuts.giteaSnap, data);
    assert GiteaEdits(cfg, m, t) == [Edit(GITEA_FILES, Captured(cuts.giteaSnap, data))];
    CapturedKeepsContent(cuts.giteaSnap, data);
    PlanAt(cfg, m, t, 0);
    PlaceHolds(files, Plan(cfg, m, t), |DefinitionEdits(m, t)|);
  }

  // -------------------------------------------------------------------- Harbor

  /** A directory that contains a directory of its own name: an older wrapper, or a
      sub-path that happens to look like one. */
  predicate WrapsItself(t: Tree, s: Path)
    requires s != []
  {
    t.Dir? && s[|s| - 1] in t.kids && t.kids[s[|s| - 1]].Dir?
  }

  lemma {:induction false} NotOwnChild(t: Tree, n: Name)
    requires t.Dir? && n in t.kids
    ensures t.kids[n] != t
  {
    if t.kids[n].Dir? && n in t.kids[n].kids {
      NotOwnChild(t.kids[n], n);
    }
  }

  lemma ContentKids(t: Tree, n: Name)
    requires t.Dir? && n in t.kids
    ensures Content(t).Dir? && n in Content(t).kids && Content(t).kids[n] == Content(t.kids[n])
  {
  }

  /** Which tree a sub-path is restored from: what was captured, exactly unless it
      wraps itself; then one level is lost. */
  lemma HarborSourceExactly(t: Tree, s: Path, captured: Tree)
    requires s != [] && Lookup(t, [HARBOR_DATA] + s) == Some(captured) && captured.Dir?
    ensures HarborSource(t, s).Some?
    ensures Content(HarborSource(t, s).value) == Content(captured) <==> !WrapsItself(captured, s)
  {
    hide Lookup;
    if WrapsItself(captured, s) {
      ContentKids(captured, s[|s| - 1]);
      NotOwnChild(Content(captured), s[|s| - 1]);
    }
  }

  lemma {:induction false} HarborEditFor(t: Tree, parts: seq<Path>, k: nat) returns (i: nat)
    requires forall j :: 0 <= j < |parts| ==> parts[j] != []
    requires k < |parts| && HarborSource(t, parts[k]).Some?
    ensures i < |HarborEdits(t, parts)|
    ensures HarborEdits(t, parts)[i] == Edit(HARBOR_FILES + parts[k], HarborSource(t, parts[k]).value)
    decreases |parts|
  {
    hide HarborSource;
    var n := |parts| - 1;
    if k == n {
      i := |HarborEdits(t, parts[..n])|;
    } else {
      i := HarborEditFor(t, parts[..n], k);
      assert parts[..n][k] == parts[k];
    }
  }

  lemma WrapsAlike(snapshot: bool, t: Tree, s: Path)
    requires s != [] && t.Dir?
    ensures WrapsItself(Captured(snapshot, t), s) <==> WrapsItself(t, s)
  {
    CapturedKids(snapshot, t);
  }

  /** One captured Harbor sub-path: its contents come back exactly when it does not
      contain a directory of its own name. */
  lemma HarborPartBack(job: Job, cuts: Cuts, whole: Whole, archives: seq<ImageArchive>, m: Manifest, t: Tree, cfg: Config,
                       files: Tree, k: nat)
    requires HoldsCapture(job, cuts, whole, archives, t) && Declares(job, m) && HARBOR in job.active
    requires StrictlySorted(job.active)
    requires HarborKnown(cuts, whole) && k < |HARBOR_ORDER| && IsDirAt(cuts.harbor.files, HARBOR_FILES + HARBOR_ORDER[k])
    requires NamedStacks(m) && AllApart(Plan(cfg, m, t)) && Applicable(files, Plan(cfg, m, t))
    ensures HARBOR_ORDER[k] != []
    ensures var back := Lookup(Apply(files, Plan(cfg, m, t)), HARBOR_FILES + HARBOR_ORDER[k]);
      var was := Lookup(cuts.harbor.files, HARBOR_FILES + HARBOR_ORDER[k]).value;
      back.Some? && (Content(back.value) == Content(was) <==> !WrapsItself(was, HARBOR_ORDER[k]))
  {
    hide Plan, Apply, AllApart, Applicable, Content, Masked, HarborEdits, WrapsItself, Lookup, HarborSource;
    ContainsIsMembership(job.active, HARBOR);
    HarborOrderApart();
    var s := HARBOR_ORDER[k];
    assert s in HARBOR_PARTS by { OrderCoversParts(k); }
    var was := Lookup(cuts.harbor.files, HARBOR_FILES + s).value;
    OneLevel(t, HARBOR_DATA);
    LookupAppend(t, [HARBOR_DATA], s);
    CapturedKids(cuts.harborSnap, was);
    HarborSourceExactly(t, s, Captured(cuts.harborSnap, was));
    CapturedKeepsContent(cuts.harborSnap, was);
    WrapsAlike(cuts.harborSnap, was, s);
    var i := HarborEditFor(t, HARBOR_ORDER, k);
    var at := PlanAtHarbor(cfg, m, t, i);
    PlaceHolds(files, Plan(cfg, m, t), at);
  }

  lemma OrderCoversParts(k: nat)
    requires k < |HARBOR_ORDER|
    ensures HARBOR_ORDER[k] in HARBOR_PARTS
  {
  }

  // ------------------------------------------------------------------ the frame

  /** Nothing of what the active stacks own lies on, above or below `q`. */
  predicate Outside(cfg: Config, active: seq<string>, q: Path)
    requires ValidNames(active)
  {
    && (forall i :: 0 <= i < |active| ==> ApartFromStack(active[i], q))
    && (GITEA in active ==> Apart(GiteaPath(cfg), q) && Apart(GITEA_FILES, q))
    && (HARBOR in active ==> forall k :: 0 <= k < |HARBOR_ORDER| ==> Apart(HARBOR_FILES + HARBOR_ORDER[k], q))
  }

  predicate ApartFromStack(name: string, q: Path)
    requires ValidName(name)
  {
    ValidNameIsEntry(name);
    Apart(STACKS + [name], q)
  }

  lemma DefinitionAside(cfg: Config, m: Manifest, t: Tree, active: seq<string>, q: Path, i: nat)
    requires NamedStacks(m) && m.activeStacks == Some(active) && Outside(cfg, active, q)
    requires i < |DefinitionEdits(m, t)|
    ensures Apart(DefinitionEdits(m, t)[i].path, q)
  {
    hide Lookup, Apart;
    assert ApartFromStack(active[i], q);
  }

  lemma GiteaAside(cfg: Config, m: Manifest, t: Tree, active: seq<string>, q: Path, i: nat)
    requires m.activeStacks == Some(active) && StrictlySorted(active) && ValidNames(active) && Outside(cfg, active, q)
    requires i < |GiteaEdits(cfg, m, t)|
    ensures Apart(GiteaEdits(cfg, m, t)[i].path, q)
  {
    hide Lookup, Apart, GiteaSourceOf, ApartFromStack;
    ContainsIsMembership(active, GITEA);
  }

  lemma HarborAside(cfg: Config, t: Tree, active: seq<string>, q: Path, i: nat)
    requires ValidNames(active) && Outside(cfg, active, q) && HARBOR in active
    requires forall j :: 0 <= j < |HARBOR_ORDER| ==> HARBOR_ORDER[j] != []
    requires i < |HarborEdits(t, HARBOR_ORDER)|
    ensures Apart(HarborEdits(t, HARBOR_ORDER)[i].path, q)
  {
    hide Apart, HarborEdits, ApartFromStack;
    var k := HarborPlace(t, HARBOR_ORDER, i);
  }

  lemma OutsideIsAside(cfg: Config, m: Manifest, t: Tree, active: seq<string>, q: Path)
    requires NamedStacks(m) && m.activeStacks == Some(active) && StrictlySorted(active) && Outside(cfg, active, q)
    ensures Aside(Plan(cfg, m, t), q)
  {
    hide Lookup, HarborEdits, DefinitionEdits, GiteaEdits, Apart, Outside, HARBOR_ORDER, IsDirAt, Contains;
    ContainsIsMembership(active, HARBOR);
    HarborOrderApart();
    var plan := Plan(cfg, m, t);
    var d, g := |DefinitionEdits(m, t)|, |GiteaEdits(cfg, m, t)|;
    forall i | 0 <= i < |plan| ensures Apart(plan[i].path, q) {
      if i < d {
        DefinitionAside(cfg, m, t, active, q, i);
      } else if i < d + g {
        GiteaAside(cfg, m, t, active, q, i - d);
      } else {
        HarborAside(cfg, t, active, q, i - d - g);
      }
    }
  }

  /** Environment files are never part of a plan. */
  lemma EnvironmentAside(cfg: Config, m: Manifest, t: Tree, active: seq<string>, env: Name)
    requires NamedStacks(m) && m.activeStacks == Some(active) && StrictlySorted(active) && GoodLayout(cfg)
    ensures Aside(Plan(cfg, m, t), ENV + [env])
  {
    var q := ENV + [env];
    FixedApart();
    forall i | 0 <= i < |active| ensures ApartFromStack(active[i], q) {
      ValidNameIsEntry(active[i]);
      var p: Path := STACKS + [active[i]];
      assert p[0] != q[0];
    }
    BelowApart(cfg.giteaStack, ENV, [env]);
    ApartUnder(cfg.giteaStack, q, [GITEA_ENTRY]);
    forall k | 0 <= k < |HARBOR_ORDER| ensures Apart(HARBOR_FILES + HARBOR_ORDER[k], q) {
      assert (HARBOR_FILES + HARBOR_ORDER[k])[0] != q[0];
    }
    assert GITEA_FILES[0] != q[0];
    OutsideIsAside(cfg, m, t, active, q);
  }

  // ------------------------------------------------------------------ contents

  lemma {:induction false} LoadedAt(dbs: map<string, Data>, loads: seq<Load>, i: nat)
    requires AllReadable(loads) && i < |loads|
    requires forall j :: i < j < |loads| ==> loads[j].db != loads[i].db
    ensures loads[i].db in LoadAll(dbs, loads) && LoadAll(dbs, loads)[loads[i].db] == loads[i].value.value
  {
    var n := |loads| - 1;
    if i < n {
      assert loads[..n][i] == loads[i];
      LoadedAt(dbs, loads[..n], i);
    }
  }

  /** A dump in the backup reads back as the database it was taken from. */
  lemma DumpReads(tools: Tools, cut: NodeState, t: Tree, entry: Name, db: string, reset: bool)
    requires Inverse(tools) && t.Dir? && DumpIn(tools, cut, t.kids, entry, db)
    ensures IsFileAt(t, [entry]) && db in cut.dbs
    ensures DumpValue(tools, t, entry, reset) == if reset then tools.resetAdmin(cut.dbs[db]) else Some(cut.dbs[db])
  {
    OneLevel(t, entry);
  }

  /** Whether Gitea's or Harbor's database is loaded is decided by the environment
      file on the target alone; its compose file comes with the backup. */
  lemma StackFoundExactly(job: Job, cuts: Cuts, whole: Whole, archives: seq<ImageArchive>, m: Manifest, t: Tree, cfg: Config, files: Tree,
                          stack: Name, env: Name, i: nat)
    requires HoldsCapture(job, cuts, whole, archives, t) && Declares(job, m) && StrictlySorted(job.active)
    requires NamedStacks(m) && AllApart(Plan(cfg, m, t)) && Applicable(files, Plan(cfg, m, t)) && GoodLayout(cfg)
    requires i < |job.active| && job.active[i] == stack && HasCompose(t, stack)
    ensures HasStack(Apply(files, Plan(cfg, m, t)), stack, env) <==> IsFileAt(files, ENV + [env])
  {
    hide Plan, Apply, AllApart, Applicable, Lookup, DefinitionsCaptured, ServicesCaptured, Shown;
    var after := Apply(files, Plan(cfg, m, t));
    DefinitionBack(job, cuts, whole, archives, m, t, cfg, files, i);
    KeptCompose(job, cuts, whole, archives, t, stack, i);
    LookupAppend(after, STACKS + [stack], [COMPOSE]);
    assert STACKS + [stack] + [COMPOSE] == STACKS + [stack, COMPOSE];
    EnvironmentAside(cfg, m, t, job.active, env);
    ApplyElsewhere(files, Plan(cfg, m, t), ENV + [env]);
  }

  lemma KeptCompose(job: Job, cuts: Cuts, whole: Whole, archives: seq<ImageArchive>, t: Tree, stack: Name, i: nat)
    requires HoldsCapture(job, cuts, whole, archives, t)
    requires i < |job.active| && job.active[i] == stack && HasCompose(t, stack)
    ensures Lookup(cuts.stacks.files, STACKS + [stack]).Some?
    ensures IsFileAt(Shown(Lookup(cuts.stacks.files, STACKS + [stack]).value, job.images, archives), [COMPOSE])
  {
    hide Lookup, ServicesCaptured, Shown;
    assert DefinitionKept(cuts.stacks.files, job.active[i], job.images, archives, t.kids[DEFINITIONS]);
    OneLevel(t, DEFINITIONS);
    LookupAppend(t, [DEFINITIONS], [stack]);
    assert [DEFINITIONS] + [stack] == [DEFINITIONS, stack];
    LookupAppend(t, [DEFINITIONS, stack], [COMPOSE]);
    assert [DEFINITIONS, stack] + [COMPOSE] == [DEFINITIONS, stack, COMPOSE];
  }

  /** Which databases a restore of this backup loads, and with what. */
  ghost predicate DatabasesBack(job: Job, cuts: Cuts, start: NodeState, dbs: map<string, Data>)
  {
    && (KEYCLOAK in job.active ==> KEYCLOAK_DB in cuts.keycloak.dbs && SameDb(dbs, cuts.keycloak.dbs, KEYCLOAK_DB))
    && (KEYCLOAK !in job.active ==> SameDb(dbs, start.dbs, KEYCLOAK_DB))
    && (GITEA in job.active && IsFileAt(start.files, ENV + [GITEA_ENV]) ==>
         GITEA_DB in cuts.giteaDump.dbs && SameDb(dbs, cuts.giteaDump.dbs, GITEA_DB))
    && (!(GITEA in job.active && IsFileAt(start.files, ENV + [GITEA_ENV])) ==> SameDb(dbs, start.dbs, GITEA_DB))
    && (HARBOR in job.active && IsFileAt(start.files, ENV + [HARBOR_ENV]) ==>
         HARBOR_DB in cuts.harborDump.dbs && HARBOR_DB in dbs &&
         job.tools.resetAdmin(cuts.harborDump.dbs[HARBOR_DB]) == Some(dbs[HARBOR_DB]))
    && (!(HARBOR in job.active && IsFileAt(start.files, ENV + [HARBOR_ENV])) ==> SameDb(dbs, start.dbs, HARBOR_DB))
    && (forall db :: db != KEYCLOAK_DB && db != GITEA_DB && db != HARBOR_DB ==> SameDb(dbs, start.dbs, db))
  }

  /** The loads of a backup, spelled out by what the target has. */
  function ExpectedLoads(job: Job, cuts: Cuts, withGitea: bool, withHarbor: bool): seq<Load>
    requires KEYCLOAK in job.active ==> KEYCLOAK_DB in cuts.keycloak.dbs
    requires withGitea ==> GITEA_DB in cuts.giteaDump.dbs
    requires withHarbor ==> HARBOR_DB in cuts.harborDump.dbs
  {
    (if KEYCLOAK in job.active then [Load(KEYCLOAK_DB, Some(cuts.keycloak.dbs[KEYCLOAK_DB]))] else [])
    + (if withGitea then [Load(GITEA_DB, Some(cuts.giteaDump.dbs[GITEA_DB]))] else [])
    + (if withHarbor then [Load(HARBOR_DB, job.tools.resetAdmin(cuts.harborDump.dbs[HARBOR_DB]))] else [])
  }

  lemma ExpectedLoadsLand(job: Job, cuts: Cuts, withGitea: bool, withHarbor: bool, dbs: map<string, Data>)
    requires KEYCLOAK in job.active ==> KEYCLOAK_DB in cuts.keycloak.dbs
    requires withGitea ==> GITEA_DB in cuts.giteaDump.dbs
    requires withHarbor ==> HARBOR_DB in cuts.harborDump.dbs
    requires AllReadable(ExpectedLoads(job, cuts, withGitea, withHarbor))
    ensures var after := LoadAll(dbs, ExpectedLoads(job, cuts, withGitea, withHarbor));
      && (KEYCLOAK in job.active ==> SameDb(after, cuts.keycloak.dbs, KEYCLOAK_DB))
      && (KEYCLOAK !in job.active ==> SameDb(after, dbs, KEYCLOAK_DB))
      && (withGitea ==> SameDb(after, cuts.giteaDump.dbs, GITEA_DB)) && (!withGitea ==> SameDb(after, dbs, GITEA_DB))
      && (withHarbor ==> HARBOR_DB in after && job.tools.resetAdmin(cuts.harborDump.dbs[HARBOR_DB]) == Some(after[HARBOR_DB]))
      && (!withHarbor ==> SameDb(after, dbs, HARBOR_DB))
      && forall db :: db != KEYCLOAK_DB && db != GITEA_DB && db != HARBOR_DB ==> SameDb(after, dbs, db)
  {
    hide LoadAll;
    var loads := ExpectedLoads(job, cuts, withGitea, withHarbor);
    var k, g := if KEYCLOAK in job.active then 1 else 0, if withGitea then 1 else 0;
    if KEYCLOAK in job.active { LoadedAt(dbs, loads, 0); } else { LoadAllElsewhere(dbs, loads, KEYCLOAK_DB); }
    if withGitea { LoadedAt(dbs, loads, k); } else { LoadAllElsewhere(dbs, loads, GITEA_DB); }
    if withHarbor { LoadedAt(dbs, loads, k + g); } else { LoadAllElsewhere(dbs, loads, HARBOR_DB); }
    forall db | db != KEYCLOAK_DB && db != GITEA_DB && db != HARBOR_DB ensures SameDb(LoadAll(dbs, loads), dbs, db) {
      LoadAllElsewhere(dbs, loads, db);
    }
  }

  /** What the backup holds for the databases and OpenBao. */
  lemma DumpsHeld(job: Job, cuts: Cuts, whole: Whole, archives: seq<ImageArchive>, t: Tree)
    requires HoldsCapture(job, cuts, whole, archives, t)
    ensures t.Dir?
    ensures KEYCLOAK in job.active ==> DumpIn(job.tools, cuts.keycloak, t.kids, KEYCLOAK_DUMP, KEYCLOAK_DB)
    ensures GITEA in job.active ==> DumpIn(job.tools, cuts.giteaDump, t.kids, GITEA_DUMP, GITEA_DB)
    ensures HARBOR in job.active ==> DumpIn(job.tools, cuts.harborDump, t.kids, HARBOR_DUMP, HARBOR_DB)
    ensures OPENBAO in job.active ==> VaultCaptured(job.tools, cuts.vault, t.kids)
  {
    hide DefinitionsCaptured, GiteaFiles, HarborFilesIn, DumpIn, VaultCaptured;
  }

  /** The loads a restore of this backup performs. */
  lemma LoadsAsExpected(job: Job, cuts: Cuts, whole: Whole, archives: seq<ImageArchive>, m: Manifest, t: Tree, cfg: Config, files: Tree)
    requires Inverse(job.tools) && HoldsCapture(job, cuts, whole, archives, t) && Declares(job, m)
    requires StrictlySorted(job.active)
    requires NamedStacks(m) && AllApart(Plan(cfg, m, t)) && Applicable(files, Plan(cfg, m, t)) && GoodLayout(cfg)
    requires forall i :: 0 <= i < |job.active| ==> HasCompose(t, job.active[i])
    ensures KEYCLOAK in job.active ==> KEYCLOAK_DB in cuts.keycloak.dbs
    ensures GITEA in job.active ==> GITEA_DB in cuts.giteaDump.dbs
    ensures HARBOR in job.active ==> HARBOR_DB in cuts.harborDump.dbs
    ensures Loads(job.tools, m, t, Apply(files, Plan(cfg, m, t))) ==
      ExpectedLoads(job, cuts, GITEA in job.active && IsFileAt(files, ENV + [GITEA_ENV]),
        HARBOR in job.active && IsFileAt(files, ENV + [HARBOR_ENV]))
    ensures LoadsVault(m, t) <==> OPENBAO in job.active && IsFileAt(t, [OPENBAO_SNAP])
    ensures OPENBAO in job.active ==> LoadsVault(m, t) && VaultValue(job.tools, t) == Some(cuts.vault.vault)
  {
    hide Plan, Apply, AllApart, Applicable, Lookup, HoldsCapture, HasStack, DumpValue, HasCompose, Contains, IsFileAt;
    hide LoadsGitea, LoadsHarbor, LoadsKeycloak, LoadsVault, VaultValue, VaultCaptured, StrictlySorted, DumpIn;
    DumpsHeld(job, cuts, whole, archives, t);
    WhichLoads(job, m, t, Apply(files, Plan(cfg, m, t)));
    if KEYCLOAK in job.active {
      DumpReads(job.tools, cuts.keycloak, t, KEYCLOAK_DUMP, KEYCLOAK_DB, false);
    }
    if GITEA in job.active {
      DumpReads(job.tools, cuts.giteaDump, t, GITEA_DUMP, GITEA_DB, false);
      var i :| 0 <= i < |job.active| && job.active[i] == GITEA;
      StackFoundExactly(job, cuts, whole, archives, m, t, cfg, files, GITEA, GITEA_ENV, i);
    }
    if HARBOR in job.active {
      DumpReads(job.tools, cuts.harborDump, t, HARBOR_DUMP, HARBOR_DB, true);
      var i :| 0 <= i < |job.active| && job.active[i] == HARBOR;
      StackFoundExactly(job, cuts, whole, archives, m, t, cfg, files, HARBOR, HARBOR_ENV, i);
    }
    if OPENBAO in job.active {
      SnapshotReads(job.tools, cuts.vault, t);
    }
  }

  /** A restore looks at the declared stacks. */
  lemma WhichLoads(job: Job, m: Manifest, t: Tree, files: Tree)
    requires Declares(job, m) && StrictlySorted(job.active)
    ensures LoadsKeycloak(m, t) <==> KEYCLOAK in job.active && IsFileAt(t, [KEYCLOAK_DUMP])
    ensures LoadsGitea(m, t, files) <==>
      GITEA in job.active && IsFileAt(t, [GITEA_DUMP]) && HasStack(files, GITEA, GITEA_ENV)
    ensures LoadsHarbor(m, t, files) <==>
      HARBOR in job.active && IsFileAt(t, [HARBOR_DUMP]) && HasStack(files, HARBOR, HARBOR_ENV)
    ensures LoadsVault(m, t) <==> OPENBAO in job.active && IsFileAt(t, [OPENBAO_SNAP])
  {
    hide HasStack, IsFileAt;
    ContainsIsMembership(job.active, KEYCLOAK);
    ContainsIsMembership(job.active, GITEA);
    ContainsIsMembership(job.active, HARBOR);
    ContainsIsMembership(job.active, OPENBAO);
  }

  /** OpenBao's snapshot in the backup reads back as the store it was taken from. */
  lemma SnapshotReads(tools: Tools, cut: NodeState, t: Tree)
    requires Inverse(tools) && t.Dir? && VaultCaptured(tools, cut, t.kids)
    ensures IsFileAt(t, [OPENBAO_SNAP]) && VaultValue(tools, t) == Some(cut.vault)
  {
    OneLevel(t, OPENBAO_SNAP);
  }

  // --------------------------------------------------------------- the theorem

  predicate SameContent(a: Tree, p: Path, b: Tree, q: Path)
  {
    Lookup(a, p).Some? && Lookup(b, q).Some? && Content(Lookup(a, p).value) == Content(Lookup(b, q).value)
  }

  /** Gitea's files are back: from the older data directory, or those of the stack
      directory, which are its own unless it is one of the older wrappers. */
  ghost predicate GiteaReturns(home: Config, cut: NodeState, cfg: Config, files: Tree)
  {
    if !IsDirAt(cut.files, home.giteaStack) then SameContent(files, GITEA_FILES, cut.files, GITEA_FILES)
    else
      var stack := Lookup(cut.files, home.giteaStack).value;
      var back := Lookup(files, GiteaPath(cfg));
      && GiteaSourceOf(stack).Some? && back.Some?
      && Content(back.value) == Content(GiteaSourceOf(stack).value.kids[GITEA_ENTRY])
      && (HoldsBoth(stack) ==> SameContent(files, GiteaPath(cfg), cut.files, GiteaPath(home)))
  }

  /** The captured directories, in place on the restored node: the definitions always,
      with images showing their archived tags, those of Gitea and Harbor where known. */
  ghost predicate DirectoriesBack(job: Job, cuts: Cuts, whole: Whole, archives: seq<ImageArchive>, cfg: Config, files: Tree)
  {
    && (forall i :: 0 <= i < |job.active| && ValidEntry(job.active[i]) ==>
         IsDirAt(cuts.stacks.files, STACKS + [job.active[i]]) &&
         Lookup(files, STACKS + [job.active[i]]) ==
           Some(Shown(Lookup(cuts.stacks.files, STACKS + [job.active[i]]).value, job.images, archives)))
    && (GITEA in job.active && GiteaKnown(cuts, whole) ==> GiteaReturns(job.cfg, cuts.gitea, cfg, files))
    && (HARBOR in job.active && HarborKnown(cuts, whole) ==>
         forall k :: 0 <= k < |HARBOR_ORDER| ==> HarborPartReturns(cuts.harbor, files, HARBOR_ORDER[k]))
  }

  /** A Harbor sub-path that was there comes back exactly when it does not hold a
      directory of its own name. */
  ghost predicate HarborPartReturns(cut: NodeState, files: Tree, s: Path)
  {
    s != [] && IsDirAt(cut.files, HARBOR_FILES + s) ==>
      (SameContent(files, HARBOR_FILES + s, cut.files, HARBOR_FILES + s) <==> !WrapsItself(Lookup(cut.files, HARBOR_FILES + s).value, s))
  }

  /** The restored node: what the backup captured, in place; all else untouched. */
  ghost predicate ComesBack(job: Job, cuts: Cuts, whole: Whole, archives: seq<ImageArchive>, cfg: Config,
                            before: NodeState, after: NodeState)
    requires ValidNames(job.active)
  {
    && DirectoriesBack(job, cuts, whole, archives, cfg, after.files)
    && DatabasesBack(job, cuts, before, after.dbs)
    && after.vault == (if OPENBAO in job.active then cuts.vault.vault else before.vault)
    && forall q :: Outside(cfg, job.active, q) ==> Lookup(after.files, q) == Lookup(before.files, q)
  }

  /** Round trip with a frame. A directory that shows a captured state, restored to
      completion on any node: every active stack's definition, the databases, OpenBao's
      store, Gitea's files and the captured Harbor sub-paths are those of the captured
      state, and everything outside the active stacks is as it was. */
  lemma CaptureThenRestore(job: Job, cuts: Cuts, whole: Whole, archives: seq<ImageArchive>, m: Manifest, t: Tree, cfg: Config,
                           before: NodeState, after: NodeState)
    requires Inverse(job.tools) && GoodLayout(cfg)
    requires Canonical(job.active) && ValidNames(job.active) && forall i :: 0 <= i < |job.active| ==> HasCompose(t, job.active[i])
    requires HoldsCapture(job, cuts, whole, archives, t) && Declares(job, m)
    requires NamedStacks(m) && AllApart(Plan(cfg, m, t)) && Applicable(before.files, Plan(cfg, m, t))
    requires after == Goal(cfg, job.tools, m, t, before) && AllLoadable(job.tools, m, t, after.files) && GiteaThere(m, t)
    ensures ComesBack(job, cuts, whole, archives, cfg, before, after)
  {
    hide HoldsCapture, Plan, Loads, LoadAll, Lookup, Outside, DatabasesBack, DirectoriesBack, HasCompose;
    GoalParts(cfg, job.tools, m, t, before);
    GiteaThereExactly(job, cuts, whole, archives, m, t);
    TheDirectories(job, cuts, whole, archives, m, t, cfg, before.files);
    TheDatabases(job, cuts, whole, archives, m, t, cfg, before);
    LoadsAsExpected(job, cuts, whole, archives, m, t, cfg, before.files);
    TheVault(job, m, t, before.vault);
    forall q | Outside(cfg, job.active, q) ensures Lookup(after.files, q) == Lookup(before.files, q) {
      OutsideIsAside(cfg, m, t, job.active, q);
      ApplyElsewhere(before.files, Plan(cfg, m, t), q);
    }
  }

  /** The same from one command to the other, for any node and any settings. A run that
      reports success captured states the node went through between its begin and its
      end, and a restore of its entry that reports success brings exactly these back.
      Gitea's database and files are of one moment with Gitea down, unless it was running
      and was not restarted by the run; Harbor's are of one moment with Harbor read-only,
      if the run had its credentials or found it so. */
  lemma NodeRebuilt(home: Config, rc: Repositories.ResticConfig, cal: Calendar, start: View, end: View, a: Account,
                    cfg: Config, root: map<string, Tree>, before: NodeState, after: NodeState)
    requires RunContract(home, rc, cal, start, end, Done, a)
    requires Inverse(a.job.tools) && GoodLayout(cfg)
    requires a.job.id in root && a.job.id in end.shelf.root && root[a.job.id] == end.shelf.root[a.job.id]
    requires RestoreRun.Restored(cfg, a.job.tools, a.job.codec, root, a.job.id, before, after)
    ensures start.trail <= end.trail && AllPassed(a.job, start.trail, end.trail, a.tr.cuts, a.tr.whole)
    ensures ComesBack(a.job, a.tr.cuts, a.tr.whole, a.tr.archives, cfg, before, after)
    ensures ReadManifest(a.job.codec, root[a.job.id]).value.archives == a.tr.archives
    ensures GITEA in a.job.active ==>
      (a.tr.whole.gitea <==> end.restarts == start.restarts + if "gitea" in start.running then 1 else 0)
    ensures a.tr.whole.harbor <==> home.harborPassword || start.harborReadOnly
    ensures home.requireBtrfs ==>
      (GITEA in a.job.active ==> GiteaKnown(a.tr.cuts, a.tr.whole)) && (HARBOR in a.job.active ==> HarborKnown(a.tr.cuts, a.tr.whole))
  {
    hide ServicesOnly, ComesBack, Untouched, InEveryRepository, AllMarked, RotationDone, FailureNoted, TidiedUp, DiscoveredIn;
    hide HoldsCapture, Goal, Plan, RotatedAround, HasDelivery, Lookup, Sound, HasCompose, AllLoadable, Applicable, AllApart, AllPassed;
    var t := a.tr.delivered;
    AcceptedStacks(a.job.codec, t);
    CaptureThenRestore(a.job, a.tr.cuts, a.tr.whole, a.tr.archives, ReadManifest(a.job.codec, t).value, t, cfg, before, after);
  }

  lemma AcceptedStacks(codec: Codec, t: Tree)
    requires Accepted(codec, t) && ReadManifest(codec, t).value.activeStacks.Some?
    ensures var m := ReadManifest(codec, t).value;
      var active := m.activeStacks.value;
      Canonical(active) && NamedStacks(m) && forall i :: 0 <= i < |active| ==> HasCompose(t, active[i])
  {
    hide Lookup, GoodOffline, GoodConsistency, GoodArtifacts, IsListOf, Listable;
  }

  lemma GoalParts(cfg: Config, tools: Tools, m: Manifest, t: Tree, node: NodeState)
    requires NamedStacks(m)
    ensures var g := Goal(cfg, tools, m, t, node);
      && g.files == Apply(node.files, Plan(cfg, m, t))
      && g.dbs == LoadAll(node.dbs, Loads(tools, m, t, g.files)) && g.vault == GoalVault(tools, m, t, node.vault)
  {
  }

  lemma TheVault(job: Job, m: Manifest, t: Tree, vault: Data)
    requires LoadsVault(m, t) <==> OPENBAO in job.active && IsFileAt(t, [OPENBAO_SNAP])
    ensures OPENBAO !in job.active ==> GoalVault(job.tools, m, t, vault) == vault
  {
    hide Lookup, VaultValue;
  }

  lemma TheDatabases(job: Job, cuts: Cuts, whole: Whole, archives: seq<ImageArchive>, m: Manifest, t: Tree, cfg: Config, before: NodeState)
    requires Inverse(job.tools) && HoldsCapture(job, cuts, whole, archives, t) && Declares(job, m)
    requires StrictlySorted(job.active)
    requires NamedStacks(m) && AllApart(Plan(cfg, m, t)) && Applicable(before.files, Plan(cfg, m, t)) && GoodLayout(cfg)
    requires forall i :: 0 <= i < |job.active| ==> HasCompose(t, job.active[i])
    requires AllReadable(Loads(job.tools, m, t, Apply(before.files, Plan(cfg, m, t))))
    ensures DatabasesBack(job, cuts, before, LoadAll(before.dbs, Loads(job.tools, m, t, Apply(before.files, Plan(cfg, m, t)))))
  {
    hide Plan, Apply, AllApart, Applicable, Lookup, HoldsCapture, LoadAll, Loads, ExpectedLoads, SameDb, HasCompose;
    LoadsAsExpected(job, cuts, whole, archives, m, t, cfg, before.files);
    var g := GITEA in job.active && IsFileAt(before.files, ENV + [GITEA_ENV]);
    var b := HARBOR in job.active && IsFileAt(before.files, ENV + [HARBOR_ENV]);
    ExpectedLoadsLand(job, cuts, g, b, before.dbs);
  }

  lemma TheDirectories(job: Job, cuts: Cuts, whole: Whole, archives: seq<ImageArchive>, m: Manifest, t: Tree, cfg: Config, files: Tree)
    requires HoldsCapture(job, cuts, whole, archives, t) && Declares(job, m)
    requires StrictlySorted(job.active) && ValidNames(job.active)
    requires NamedStacks(m) && AllApart(Plan(cfg, m, t)) && Applicable(files, Plan(cfg, m, t))
    requires GITEA in job.active && GiteaKnown(cuts, whole) ==> LayoutKnown(job.cfg, cuts.gitea.files)
    ensures DirectoriesBack(job, cuts, whole, archives, cfg, Apply(files, Plan(cfg, m, t)))
  {
    hide Plan, Apply, AllApart, Applicable, Lookup, HoldsCapture, GiteaReturns, Content, WrapsItself;
    forall i | 0 <= i < |job.active| && ValidEntry(job.active[i])
      ensures IsDirAt(cuts.stacks.files, STACKS + [job.active[i]])
      ensures Lookup(Apply(files, Plan(cfg, m, t)), STACKS + [job.active[i]]) ==
        Some(Shown(Lookup(cuts.stacks.files, STACKS + [job.active[i]]).value, job.images, archives))
    {
      DefinitionBack(job, cuts, whole, archives, m, t, cfg, files, i);
      DefinitionIsDir(job, cuts, whole, archives, t, i);
    }
    if GITEA in job.active && GiteaKnown(cuts, whole) {
      GiteaBack(job, cuts, whole, archives, m, t, cfg, files);
    }
    if HARBOR in job.active && HarborKnown(cuts, whole) {
      forall k | 0 <= k < |HARBOR_ORDER| ensures HarborPartReturns(cuts.harbor, Apply(files, Plan(cfg, m, t)), HARBOR_ORDER[k]) {
        if IsDirAt(cuts.harbor.files, HARBOR_FILES + HARBOR_ORDER[k]) {
          HarborPartBack(job, cuts, whole, archives, m, t, cfg, files, k);
        }
      }
    }
  }

  /** Gitea's files, from wherever they were kept. */
  lemma GiteaBack(job: Job, cuts: Cuts, whole: Whole, archives: seq<ImageArchive>, m: Manifest, t: Tree, cfg: Config, files: Tree)
    requires HoldsCapture(job, cuts, whole, archives, t) && Declares(job, m) && GITEA in job.active
    requires StrictlySorted(job.active) && GiteaKnown(cuts, whole) && LayoutKnown(job.cfg, cuts.gitea.files)
    requires NamedStacks(m) && AllApart(Plan(cfg, m, t)) && Applicable(files, Plan(cfg, m, t))
    ensures GiteaReturns(job.cfg, cuts.gitea, cfg, Apply(files, Plan(cfg, m, t)))
  {
    hide Plan, Apply, AllApart, Applicable, Lookup, HoldsCapture, Content;
    if !IsDirAt(cuts.gitea.files, job.cfg.giteaStack) {
      GiteaDataBack(job, cuts, whole, archives, m, t, cfg, files);
    } else {
      GiteaStackBack(job, cuts, whole, archives, m, t, cfg, files);
      LookupAppend(cuts.gitea.files, job.cfg.giteaStack, [GITEA_ENTRY]);
      OneLevel(Lookup(cuts.gitea.files, job.cfg.giteaStack).value, GITEA_ENTRY);
    }
  }

  // ------------------------------------------------- what can be restored at all

  const CORE: Path := ["core"]
  const PASSWORD: Name := "registry.passwd"

  /** A non-empty password file in Harbor's `core` directory. */
  predicate PasswordIn(core: Tree)
  {
    core.Dir? && PASSWORD in core.kids && core.kids[PASSWORD].File? && |core.kids[PASSWORD].data| > 0
  }

  /** What a restore takes a captured sub-path for. */
  function Unwrapped(t: Tree, s: Path): Tree
    requires s != []
  {
    if WrapsItself(t, s) then t.kids[s[|s| - 1]] else t
  }

  /** Where the registry password comes from: the source, if its `core` directory was
      captured, or else the target. */
  predicate PasswordBack(cut: NodeState, files: Tree)
  {
    if IsDirAt(cut.files, HARBOR_FILES + CORE) then PasswordIn(Unwrapped(Lookup(cut.files, HARBOR_FILES + CORE).value, CORE))
    else PasswordFileFound(files)
  }

  /** The same, of a backup: its `core` directory decides if it has one. */
  predicate PasswordThere(t: Tree, files: Tree)
  {
    var core := HarborSource(t, CORE);
    if core.Some? then PasswordIn(core.value) else PasswordFileFound(files)
  }

  lemma PasswordAt(files: Tree, core: Tree)
    requires Lookup(files, HARBOR_FILES + CORE) == Some(core)
    ensures PasswordFileFound(files) <==> PasswordIn(core)
  {
    hide Lookup;
    LookupAppend(files, HARBOR_FILES + CORE, [PASSWORD]);
    assert HARBOR_FILES + CORE + [PASSWORD] == HARBOR_FILES + ["core", PASSWORD];
    if core.Dir? {
      OneLevel(core, PASSWORD);
    } else {
      NothingBelow(core, PASSWORD);
    }
  }

  lemma NothingBelow(t: Tree, n: Name)
    requires !t.Dir?
    ensures Lookup(t, [n]) == None
  {
  }

  lemma SamePassword(snapshot: bool, t: Tree)
    requires t.Dir?
    ensures PasswordIn(Unwrapped(Captured(snapshot, t), CORE)) <==> PasswordIn(Unwrapped(t, CORE))
    ensures Unwrapped(Captured(snapshot, t), CORE).Dir?
  {
    CapturedKids(snapshot, t);
    if WrapsItself(t, CORE) {
      CapturedKids(snapshot, t.kids["core"]);
    }
  }

  lemma CoreIs()
    ensures HARBOR_ORDER[1] == CORE && CORE in HARBOR_PARTS
  {
  }

  /** Without a `core` directory in the backup its place is left alone. */
  lemma PasswordAside(cfg: Config, m: Manifest, t: Tree, active: seq<string>)
    requires NamedStacks(m) && m.activeStacks == Some(active) && StrictlySorted(active) && GoodLayout(cfg)
    requires HarborSource(t, CORE).None?
    ensures Aside(Plan(cfg, m, t), HARBOR_FILES + ["core", PASSWORD])
  {
    hide Lookup, HarborEdits, Includes, GiteaSourceOf, HarborSource, IsDirAt;
    var q := HARBOR_FILES + ["core", PASSWORD];
    var d, g := |DefinitionEdits(m, t)|, |GiteaEdits(cfg, m, t)|;
    HarborOrderApart();
    FixedApart();
    CoreIs();
    var plan := Plan(cfg, m, t);
    forall i | 0 <= i < |plan| ensures Apart(plan[i].path, q) {
      if i < d {
        assert plan[i].path[0] == "stacks" && q[0] == "data";
      } else if i < d + g {
        BelowApart(cfg.giteaStack, HARBOR_FILES, ["core", PASSWORD]);
        ApartUnder(cfg.giteaStack, q, [GITEA_ENTRY]);
        BelowApart(GITEA_FILES, HARBOR_FILES, ["core", PASSWORD]);
      } else {
        var k := HarborPlace(t, HARBOR_ORDER, i - d - g);
        assert k != 1;
        OtherPartAside(k);
      }
    }
  }

  lemma OtherPartAside(k: nat)
    requires k < |HARBOR_ORDER| && k != 1
    ensures Apart(HARBOR_FILES + HARBOR_ORDER[k], HARBOR_FILES + ["core", PASSWORD])
  {
    assert (HARBOR_FILES + HARBOR_ORDER[k])[2] != "core";
  }

  lemma CoreInBackup(job: Job, cuts: Cuts, whole: Whole, archives: seq<ImageArchive>, t: Tree)
    requires HoldsCapture(job, cuts, whole, archives, t) && HARBOR in job.active && HarborKnown(cuts, whole)
    ensures Lookup(t, [HARBOR_DATA] + CORE) == PartCaptured(cuts.harborSnap, cuts.harbor.files, CORE)
  {
    hide Lookup, PartCaptured, DefinitionsCaptured;
    CoreIs();
    OneLevel(t, HARBOR_DATA);
    LookupAppend(t, [HARBOR_DATA], CORE);
  }

  /** Which registry password the restored node has, if any: as far as the backup tells. */
  lemma PasswordFromBackup(cfg: Config, m: Manifest, t: Tree, active: seq<string>, files: Tree)
    requires NamedStacks(m) && m.activeStacks == Some(active) && StrictlySorted(active) && GoodLayout(cfg) && HasHarborData(m, t)
    requires AllApart(Plan(cfg, m, t)) && Applicable(files, Plan(cfg, m, t))
    ensures PasswordFileFound(Apply(files, Plan(cfg, m, t))) <==> PasswordThere(t, files)
  {
    hide Plan, Apply, AllApart, Applicable, HarborEdits, Lookup, HasHarborData, PasswordIn, PasswordFileFound, HarborSource;
    HarborOrderApart();
    CoreIs();
    var plan := Plan(cfg, m, t);
    if HarborSource(t, CORE).Some? {
      var i := HarborEditFor(t, HARBOR_ORDER, 1);
      var at := PlanAtHarbor(cfg, m, t, i);
      PlaceHolds(files, plan, at);
      PasswordAt(Apply(files, plan), HarborSource(t, CORE).value);
    } else {
      PasswordAside(cfg, m, t, active);
      ApplyElsewhere(files, plan, HARBOR_FILES + ["core", PASSWORD]);
      SamePasswordFile(files, Apply(files, plan));
    }
  }

  /** And in terms of the source, where its files are known. */
  lemma PasswordExactly(job: Job, cuts: Cuts, whole: Whole, archives: seq<ImageArchive>, m: Manifest, t: Tree, cfg: Config, files: Tree)
    requires HoldsCapture(job, cuts, whole, archives, t) && Declares(job, m) && HARBOR in job.active && HarborKnown(cuts, whole)
    requires StrictlySorted(job.active) && GoodLayout(cfg) && NamedStacks(m) && HasHarborData(m, t)
    requires AllApart(Plan(cfg, m, t)) && Applicable(files, Plan(cfg, m, t))
    ensures PasswordFileFound(Apply(files, Plan(cfg, m, t))) <==> PasswordBack(cuts.harbor, files)
  {
    hide Plan, Apply, AllApart, Applicable, Lookup, HoldsCapture, HasHarborData, Captured, PasswordIn, PasswordFileFound;
    hide WrapsItself, HarborSource;
    PasswordFromBackup(cfg, m, t, job.active, files);
    CoreInBackup(job, cuts, whole, archives, t);
    if IsDirAt(cuts.harbor.files, HARBOR_FILES + CORE) {
      var was := Lookup(cuts.harbor.files, HARBOR_FILES + CORE).value;
      CapturedKids(cuts.harborSnap, was);
      SamePassword(cuts.harborSnap, was);
      CoreSource(t, Captured(cuts.harborSnap, was));
    } else {
      NoCoreSource(cuts.harborSnap, cuts.harbor.files, t);
    }
  }

  lemma CoreSource(t: Tree, captured: Tree)
    requires Lookup(t, [HARBOR_DATA] + CORE) == Some(captured) && captured.Dir?
    ensures HarborSource(t, CORE) == Some(Unwrapped(captured, CORE))
  {
    hide Lookup;
  }

  lemma NoCoreSource(snapshot: bool, files: Tree, t: Tree)
    requires Lookup(t, [HARBOR_DATA] + CORE) == PartCaptured(snapshot, files, CORE) && !IsDirAt(files, HARBOR_FILES + CORE)
    ensures HarborSource(t, CORE).None?
  {
    hide Lookup;
  }

  lemma SamePasswordFile(a: Tree, b: Tree)
    requires Lookup(b, HARBOR_FILES + ["core", PASSWORD]) == Lookup(a, HARBOR_FILES + ["core", PASSWORD])
    ensures PasswordFileFound(a) <==> PasswordFileFound(b)
  {
    hide Lookup;
  }

  /** What a backup still needs from the source it shows and the node it goes to: no file
      in the way, Gitea's stack in one of the two layouts, a registry password, and a
      Harbor database its statement can be run on. Of files that were not known the backup
      itself has to tell. */
  ghost predicate Fits(job: Job, cuts: Cuts, whole: Whole, m: Manifest, t: Tree, cfg: Config, files: Tree)
    requires NamedStacks(m)
  {
    && Applicable(files, Plan(cfg, m, t))
    && (GITEA in job.active ==> if GiteaKnown(cuts, whole) then LayoutKnown(job.cfg, cuts.gitea.files) else GiteaThere(m, t))
    && (HARBOR in job.active ==> if HarborKnown(cuts, whole) then PasswordBack(cuts.harbor, files) else PasswordThere(t, files))
    && (HARBOR in job.active && IsFileAt(files, ENV + [HARBOR_ENV]) ==> AdminResets(job.tools, cuts.harborDump))
  }

  predicate AdminResets(tools: Tools, cut: NodeState)
  {
    HARBOR_DB in cut.dbs && tools.resetAdmin(cut.dbs[HARBOR_DB]).Some?
  }

  lemma GiteaThereExactly(job: Job, cuts: Cuts, whole: Whole, archives: seq<ImageArchive>, m: Manifest, t: Tree)
    requires HoldsCapture(job, cuts, whole, archives, t) && Declares(job, m) && StrictlySorted(job.active)
    ensures GITEA !in job.active ==> GiteaThere(m, t)
    ensures GITEA in job.active && GiteaKnown(cuts, whole) ==> (GiteaThere(m, t) <==> LayoutKnown(job.cfg, cuts.gitea.files))
  {
    hide Lookup, Captured, GiteaSourceOf, DefinitionsCaptured;
    ContainsIsMembership(job.active, GITEA);
    if GITEA in job.active && GiteaKnown(cuts, whole) {
      OneLevel(t, GITEA_STACK);
      if IsDirAt(cuts.gitea.files, job.cfg.giteaStack) {
        var stack := Lookup(cuts.gitea.files, job.cfg.giteaStack).value;
        CapturedKids(cuts.giteaSnap, stack);
        SameLayout(cuts.giteaSnap, stack);
      }
    }
  }

  lemma OwnDefinitionsThere(job: Job, cuts: Cuts, whole: Whole, archives: seq<ImageArchive>, m: Manifest, t: Tree)
    requires HoldsCapture(job, cuts, whole, archives, t) && Declares(job, m) && ValidNames(job.active)
    ensures DefinitionsThere(m, t)
  {
    hide Lookup, ServicesCaptured;
    OneLevel(t, DEFINITIONS);
    forall i | 0 <= i < |job.active| ensures DefinitionThere(t, job.active[i]) {
      ValidNameIsEntry(job.active[i]);
      var name: Name := job.active[i];
      assert DefinitionKept(cuts.stacks.files, job.active[i], job.images, archives, t.kids[DEFINITIONS]);
      LookupAppend(t, [DEFINITIONS], [name]);
      assert [DEFINITIONS] + [name] == [DEFINITIONS, name];
    }
  }

  /** No backup of this program stands in the way of its own restore: it can be restored,
      failing steps aside, if and only if source and target fit. */
  lemma RestorableExactly(job: Job, cuts: Cuts, whole: Whole, archives: seq<ImageArchive>, m: Manifest, t: Tree, cfg: Config, files: Tree)
    requires Inverse(job.tools) && GoodLayout(cfg)
    requires Canonical(job.active) && ValidNames(job.active) && forall i :: 0 <= i < |job.active| ==> HasCompose(t, job.active[i])
    requires HoldsCapture(job, cuts, whole, archives, t) && Declares(job, m) && NamedStacks(m) && RestoreRun.RevisionThere(m, t)
    ensures RestoreRun.Restorable(cfg, job.tools, m, t, files) <==> Fits(job, cuts, whole, m, t, cfg, files)
  {
    hide Plan, Apply, AllApart, Applicable, Lookup, HoldsCapture, Loads, HasCompose, PasswordFileFound, DefinitionsThere, GiteaThere;
    hide LayoutKnown, LoadsVault, SnapshotUsable, VaultValue, AdminResets, AllReadable, PasswordBack, PasswordThere, HasHarborData;
    hide RestoreRun.RevisionThere;
    OwnDefinitionsThere(job, cuts, whole, archives, m, t);
    GiteaThereExactly(job, cuts, whole, archives, m, t);
    HarborDataThere(job, cuts, whole, archives, m, t);
    if Applicable(files, Plan(cfg, m, t)) {
      PlanApart(cfg, m, t);
      LoadsAsExpected(job, cuts, whole, archives, m, t, cfg, files);
      var g := GITEA in job.active && IsFileAt(files, ENV + [GITEA_ENV]);
      var b := HARBOR in job.active && IsFileAt(files, ENV + [HARBOR_ENV]);
      ReadableExactly(job, cuts, g, b);
      OwnSnapshotUsable(job, cuts, whole, archives, t);
      if HARBOR in job.active {
        PasswordFromBackup(cfg, m, t, job.active, files);
        if HarborKnown(cuts, whole) {
          PasswordExactly(job, cuts, whole, archives, m, t, cfg, files);
        }
      }
    }
  }

  lemma HarborDataThere(job: Job, cuts: Cuts, whole: Whole, archives: seq<ImageArchive>, m: Manifest, t: Tree)
    requires HoldsCapture(job, cuts, whole, archives, t) && Declares(job, m) && StrictlySorted(job.active)
    ensures HasHarborData(m, t) <==> HARBOR in job.active && IsDirAt(t, [HARBOR_DATA])
    ensures HARBOR in job.active ==> IsDirAt(t, [HARBOR_DATA])
  {
    hide Lookup, DefinitionsCaptured, PartsCaptured;
    ContainsIsMembership(job.active, HARBOR);
    OneLevel(t, HARBOR_DATA);
  }

  lemma ReadableExactly(job: Job, cuts: Cuts, withGitea: bool, withHarbor: bool)
    requires KEYCLOAK in job.active ==> KEYCLOAK_DB in cuts.keycloak.dbs
    requires withGitea ==> GITEA_DB in cuts.giteaDump.dbs
    requires withHarbor ==> HARBOR_DB in cuts.harborDump.dbs
    ensures AllReadable(ExpectedLoads(job, cuts, withGitea, withHarbor)) <==> (withHarbor ==> AdminResets(job.tools, cuts.harborDump))
  {
    var loads := ExpectedLoads(job, cuts, withGitea, withHarbor);
    if withHarbor {
      assert loads[|loads| - 1] == Load(HARBOR_DB, job.tools.resetAdmin(cuts.harborDump.dbs[HARBOR_DB]));
    }
  }

  lemma OwnSnapshotUsable(job: Job, cuts: Cuts, whole: Whole, archives: seq<ImageArchive>, t: Tree)
    requires Inverse(job.tools) && HoldsCapture(job, cuts, whole, archives, t)
    ensures OPENBAO in job.active ==> SnapshotUsable(job.tools, t)
  {
    hide Lookup, DefinitionsCaptured, GiteaCaptured, HarborCaptured;
    OneLevel(t, OPENBAO_SNAP);
  }

  /** From one command to the other: a run that reports success leaves an entry that any
      node can be restored from, if and only if source and target fit and the entry has a
      valid name. */
  lemma DoneIsRestorable(home: Config, rc: Repositories.ResticConfig, cal: Calendar, start: View, end: View, a: Account,
                         cfg: Config, root: map<string, Tree>, files: Tree)
    requires RunContract(home, rc, cal, start, end, Done, a)
    requires Inverse(a.job.tools) && GoodLayout(cfg)
    requires a.job.id in root && a.job.id in end.shelf.root && root[a.job.id] == end.shelf.root[a.job.id]
    ensures var m := ReadManifest(a.job.codec, root[a.job.id]).value;
      NamedStacks(m) &&
      (RestoreRun.CanRestore(cfg, a.job.tools, a.job.codec, root, a.job.id, files) <==>
       ValidID(a.job.id) && Fits(a.job, a.tr.cuts, a.tr.whole, m, root[a.job.id], cfg, files))
  {
    hide ServicesOnly, Untouched, InEveryRepository, AllMarked, RotationDone, FailureNoted, TidiedUp, DiscoveredIn, HoldsCapture, Plan;
    hide RotatedAround, HasDelivery, Lookup, Sound, HasCompose, Fits, RestoreRun.Restorable, AllPassed, HarborStill;
    var t := a.tr.delivered;
    var m := ReadManifest(a.job.codec, t).value;
    AcceptedStacks(a.job.codec, t);
    CaptureIsDir(a.job, a.tr.cuts, a.tr.whole, a.tr.archives, t);
    RevisionOffered(a.job, a.tr.archives, m, t);
    RestorableExactly(a.job, a.tr.cuts, a.tr.whole, a.tr.archives, m, t, cfg, files);
    assert ValidID("latest") ==> false;
  }

  /** A run with images has kept the repository at a revision it names. */
  lemma RevisionOffered(job: Job, archives: seq<ImageArchive>, m: Manifest, t: Tree)
    requires Declares(job, m) && Offered(job, archives, m, t)
    ensures RestoreRun.RevisionThere(m, t)
  {
    hide IsFileAt, IsDirAt;
  }

  lemma CaptureIsDir(job: Job, cuts: Cuts, whole: Whole, archives: seq<ImageArchive>, t: Tree)
    requires HoldsCapture(job, cuts, whole, archives, t)
    ensures t.Dir?
  {
  }

  lemma DefinitionIsDir(job: Job, cuts: Cuts, whole: Whole, archives: seq<ImageArchive>, t: Tree, i: nat)
    requires HoldsCapture(job, cuts, whole, archives, t) && i < |job.active| && ValidEntry(job.active[i])
    ensures IsDirAt(cuts.stacks.files, STACKS + [job.active[i]])
  {
    hide Lookup, ServicesCaptured;
    assert DefinitionKept(cuts.stacks.files, job.active[i], job.images, archives, t.kids[DEFINITIONS]);
  }
}
