/** What a restore of one backup is meant to do to a node, as a value: the
    directories it replaces and the contents it loads. */
module RestorePlan {
  import opened Text
  import opened Trees
  import opened Edits
  import opened StackScope
  import opened Manifests
  import opened Capture
  import opened Hosts

  /** `restoreIncludesStack`: older manifests do not name stacks and include all. */
  predicate Includes(m: Manifest, stack: string)
  {
    m.activeStacks.None? || Contains(m.activeStacks.value, stack)
  }

  predicate NamedStacks(m: Manifest)
  {
    m.activeStacks.Some? ==> ValidNames(m.activeStacks.value)
  }

  function Sub(t: Tree, p: Path): Tree
  {
    if Lookup(t, p).Some? then Lookup(t, p).value else EMPTY_DIR
  }

  // ---------------------------------------------------------- the directories

  function ActiveDefinitions(t: Tree, active: seq<string>): (e: seq<Edit>)
    requires ValidNames(active)
    ensures |e| == |active|
  {
    seq(|active|, i requires 0 <= i < |active| =>
      ValidNameIsEntry(active[i]);
      Edit(STACKS + [active[i]], Sub(t, [DEFINITIONS, active[i]])))
  }

  function DefinitionEdits(m: Manifest, t: Tree): seq<Edit>
    requires NamedStacks(m)
  {
    if !m.stackDefinitions then []
    else if m.activeStacks.None? then [Edit(STACKS, Sub(t, [DEFINITIONS]))]
    else ActiveDefinitions(t, m.activeStacks.value)
  }

  const GITEA_ENTRY: Name := "gitea"
  const POSTGRES_ENTRY: Name := "postgres"
  const LEGACY_PREFIX := ".gitea-"

  /** A directory that holds both parts of a Gitea stack. */
  predicate HoldsBoth(t: Tree)
  {
    t.Dir? && GITEA_ENTRY in t.kids && t.kids[GITEA_ENTRY].Dir? && POSTGRES_ENTRY in t.kids && t.kids[POSTGRES_ENTRY].Dir?
  }

  predicate Candidate(t: Tree, n: Name)
    requires t.Dir?
  {
    n in t.kids && t.kids[n].Dir? && LEGACY_PREFIX <= n && HoldsBoth(t.kids[n])
  }

  /** `n` is the one older wrapper in `t`. */
  ghost predicate OnlyCandidate(t: Tree, n: Name)
    requires t.Dir?
  {
    Candidate(t, n) && forall k :: Candidate(t, k) ==> k == n
  }

  /** The directory itself if it holds both parts, else its only wrapper that does. */
  ghost function GiteaSourceOf(t: Tree): (found: Option<Tree>)
    ensures found.Some? ==> HoldsBoth(found.value)
    ensures t.Dir? && HoldsBoth(t) ==> found == Some(t)
  {
    if !t.Dir? then None
    else if HoldsBoth(t) then Some(t)
    else if n :| OnlyCandidate(t, n) then Some(t.kids[n])
    else None
  }

  /** `snapshotArtifactSource` */
  method SnapshotArtifactSource(t: Tree) returns (found: Option<Tree>)
    ensures found == GiteaSourceOf(t)
  {
    if !t.Dir? {
      return None;
    }
    if HoldsBoth(t) {
      return Some(t);
    }
    var names := SortedNames(t.kids.Keys);
    SortedIsDistinct(names);
    var candidate: Option<Name> := None;
    var k := 0;
    while k < |names|
      invariant 0 <= k <= |names|
      invariant FoundSoFar(t, names, k, candidate)
    {
      assert names[k] in names;
      var n: Name := names[k];
      if Candidate(t, n) {
        if candidate.Some? {
          TwoCandidates(t, candidate.value, n);
          return None;
        }
        candidate := Some(n);
      }
      k := k + 1;
    }
    forall n | Candidate(t, n) ensures candidate == Some(n) {
      assert n in names;
    }
    if candidate.Some? {
      assert OnlyCandidate(t, candidate.value);
      return Some(t.kids[candidate.value]);
    }
    return None;
  }

  ghost predicate FoundSoFar(t: Tree, names: seq<string>, k: nat, candidate: Option<Name>)
    requires t.Dir? && k <= |names|
  {
    && (candidate.Some? ==> Candidate(t, candidate.value) && candidate.value in names[..k])
    && (forall i :: 0 <= i < k && names[i] in t.kids && Candidate(t, names[i]) ==> candidate == Some(names[i]))
  }

  lemma TwoCandidates(t: Tree, a: Name, b: Name)
    requires t.Dir? && Candidate(t, a) && Candidate(t, b) && a != b
    ensures !exists n :: OnlyCandidate(t, n)
  {
  }

  predicate HasGiteaStack(m: Manifest, t: Tree) { Includes(m, GITEA) && IsDirAt(t, [GITEA_STACK]) }
  predicate HasGiteaData(m: Manifest, t: Tree) { Includes(m, GITEA) && !IsDirAt(t, [GITEA_STACK]) && IsDirAt(t,
                         [GITEA_DATA]) }

  ghost function GiteaEdits(cfg: Config, m: Manifest, t: Tree): seq<Edit>
  {
    if HasGiteaStack(m, t) then
      var source := GiteaSourceOf(Sub(t, [GITEA_STACK]));
      if source.None? then [] else [Edit(cfg.giteaStack + [GITEA_ENTRY], source.value.kids[GITEA_ENTRY])]
    else if HasGiteaData(m, t) then [Edit(GITEA_FILES, Sub(t, [GITEA_DATA]))]
    else []
  }

  /** Harbor's sub-paths in the order they are restored. */
  const HARBOR_ORDER: seq<Path> := [["registry"], ["core"], ["job_logs"], ["trivy-adapter", "reports"]]

  /** One sub-path: older backups wrapped it once more under its own name. */
  function HarborSource(t: Tree, s: Path): Option<Tree>
    requires s != []
  {
    var d := Lookup(t, [HARBOR_DATA] + s);
    if d.None? || !d.value.Dir? then None
    else
      var base := s[|s| - 1];
      if base in d.value.kids && d.value.kids[base].Dir? then Some(d.value.kids[base]) else d
  }

  function HarborEdits(t: Tree, parts: seq<Path>): seq<Edit>
    requires forall i :: 0 <= i < |parts| ==> parts[i] != []
  {
    if parts == [] then []
    else
      var n := |parts| - 1;
      var source := HarborSource(t, parts[n]);
      HarborEdits(t, parts[..n]) + if source.Some? then [Edit(HARBOR_FILES + parts[n], source.value)] else []
  }

  predicate HasHarborData(m: Manifest, t: Tree) { Includes(m, HARBOR) && IsDirAt(t, [HARBOR_DATA]) }

  /** Every directory the restore replaces, in order. */
  ghost function Plan(cfg: Config, m: Manifest, t: Tree): seq<Edit>
    requires NamedStacks(m)
  {
    DefinitionEdits(m, t) + GiteaEdits(cfg, m, t) + if HasHarborData(m, t) then HarborEdits(t, HARBOR_ORDER) else []
  }

  // ------------------------------------------------------------- the contents

  /** Gitea's and Harbor's databases are loaded only where the stack's compose file
      and environment file are found on the node. */
  predicate HasStack(files: Tree, stack: Name, env: Name)
  {
    IsFileAt(files, STACKS + [stack, COMPOSE]) && IsFileAt(files, ENV + [env])
  }

  const GITEA_ENV: Name := "gitea.env"
  const HARBOR_ENV: Name := "harbor.env"

  predicate LoadsKeycloak(m: Manifest, t: Tree) { Includes(m, KEYCLOAK) && IsFileAt(t, [KEYCLOAK_DUMP]) }
  predicate LoadsGitea(m: Manifest, t: Tree, files: Tree) { Includes(m, GITEA) && IsFileAt(t,
                       [GITEA_DUMP]) && HasStack(files, GITEA, GITEA_ENV) }
  predicate LoadsHarbor(m: Manifest, t: Tree, files: Tree) { Includes(m, HARBOR) && IsFileAt(t,
                        [HARBOR_DUMP]) && HasStack(files, HARBOR, HARBOR_ENV) }
  predicate LoadsVault(m: Manifest, t: Tree) { Includes(m, OPENBAO) && IsFileAt(t, [OPENBAO_SNAP]) }

  /** A dump as it reads after loading, and after the optional statement that follows. */
  function DumpValue(tools: Tools, t: Tree, entry: Name, reset: bool): Option<Data>
  {
    var f := Lookup(t, [entry]);
    if f.None? || !f.value.File? then None
    else
      var v := tools.load(f.value.data);
      if v.None? || !reset then v else tools.resetAdmin(v.value)
  }

  function VaultValue(tools: Tools, t: Tree): Option<Data>
  {
    var f := Lookup(t, [OPENBAO_SNAP]);
    if f.None? || !f.value.File? then None else tools.resume(f.value.data)
  }

  /** One database to be replaced. */
  datatype Load = Load(db: string, value: Option<Data>)

  /** Every database the restore loads, in order; `files` tells which stacks the
      node has once the directories are in place. */
  function Loads(tools: Tools, m: Manifest, t: Tree, files: Tree): seq<Load>
  {
    (if LoadsKeycloak(m, t) then [Load(KEYCLOAK_DB, DumpValue(tools, t, KEYCLOAK_DUMP, false))] else [])
    + (if LoadsGitea(m, t, files) then [Load(GITEA_DB, DumpValue(tools, t, GITEA_DUMP, false))] else [])
    + (if LoadsHarbor(m, t, files) then [Load(HARBOR_DB, DumpValue(tools, t, HARBOR_DUMP, true))] else [])
  }

  predicate IsLoaded(loads: seq<Load>, db: string)
  {
    exists i :: 0 <= i < |loads| && loads[i].db == db
  }

  function LoadAll(dbs: map<string, Data>, loads: seq<Load>): map<string, Data>
  {
    if loads == [] then dbs
    else
      var last := loads[|loads| - 1];
      var before := LoadAll(dbs, loads[..|loads| - 1]);
      if last.value.Some? then before[last.db := last.value.value] else before
  }

  predicate AllReadable(loads: seq<Load>)
  {
    forall i :: 0 <= i < |loads| ==> loads[i].value.Some?
  }

  predicate AllLoadable(tools: Tools, m: Manifest, t: Tree, files: Tree)
  {
    AllReadable(Loads(tools, m, t, files)) && (LoadsVault(m, t) ==> VaultValue(tools, t).Some?)
  }

  /** A database that is loaded ends the same whatever it held. */
  lemma {:induction false} LoadAllAgree(a: map<string, Data>, b: map<string, Data>, loads: seq<Load>, db: string)
    requires AllReadable(loads) && (SameDb(a, b, db) || IsLoaded(loads, db))
    ensures SameDb(LoadAll(a, loads), LoadAll(b, loads), db)
  {
    if loads != [] {
      var n := |loads| - 1;
      if loads[n].db != db {
        assert IsLoaded(loads, db) ==> IsLoaded(loads[..n], db) by {
          if IsLoaded(loads, db) {
            var i :| 0 <= i < |loads| && loads[i].db == db;
            assert loads[..n][i].db == db;
          }
        }
        LoadAllAgree(a, b, loads[..n], db);
      }
    }
  }

  /** One that is not loaded stays. */
  lemma {:induction false} LoadAllElsewhere(dbs: map<string, Data>, loads: seq<Load>, db: string)
    requires !IsLoaded(loads, db)
    ensures SameDb(LoadAll(dbs, loads), dbs, db)
  {
    if loads != [] {
      var n := |loads| - 1;
      assert forall i :: 0 <= i < n ==> loads[..n][i] == loads[i];
      LoadAllElsewhere(dbs, loads[..n], db);
    }
  }

  function GoalVault(tools: Tools, m: Manifest, t: Tree, vault: Data): Data
  {
    var v := VaultValue(tools, t);
    if LoadsVault(m, t) && v.Some? then v.value else vault
  }

  /** The node a completed restore leaves, from the node it found. */
  ghost function Goal(cfg: Config, tools: Tools, m: Manifest, t: Tree, node: NodeState): NodeState
    requires NamedStacks(m)
  {
    var files := Apply(node.files, Plan(cfg, m, t));
    NodeState(files, LoadAll(node.dbs, Loads(tools, m, t, files)), GoalVault(tools, m, t, node.vault))
  }

  // --------------------------------------------- while a restore is under way

  /** `now` differs from `start` only at the places of `plan`. */
  ghost predicate Reached(plan: seq<Edit>, start: Tree, now: Tree)
  {
    && (Applicable(start, plan) ==> Applicable(now, plan) && Outline(now, plan) == Outline(start, plan))
    && forall q :: Aside(plan, q) ==> Lookup(now, q) == Lookup(start, q)
  }

  lemma ReachedAlready(plan: seq<Edit>, start: Tree)
    ensures Reached(plan, start, start)
  {
  }

  lemma ReachedOn(plan: seq<Edit>, a: Tree, b: Tree, c: Tree)
    requires Reached(plan, a, b) && Reached(plan, b, c)
    ensures Reached(plan, a, c)
  {
    hide Lookup, Outline, CanPut;
  }

  /** Writing or removing at a place of the plan stays within it. */
  lemma ReachedByEdit(plan: seq<Edit>, t: Tree, i: nat, x: Tree)
    requires AllApart(plan) && i < |plan|
    ensures CanPut(t, plan[i].path) ==> Reached(plan, t, PutAt(t, plan[i].path, x))
    ensures Reached(plan, t, RemoveAt(t, plan[i].path))
  {
    hide Lookup, Outline, CanPut;
    var p := plan[i].path;
    if Applicable(t, plan) {
      OutlineOfEdited(t, plan, i, x);
    }
    if CanPut(t, p) {
      forall q | Aside(plan, q) ensures Lookup(PutAt(t, p, x), q) == Lookup(t, q) {
        PutElsewhere(t, p, x, q);
      }
    }
    forall q | Aside(plan, q) ensures Lookup(RemoveAt(t, p), q) == Lookup(t, q) {
      RemoveElsewhere(t, p, q);
    }
  }

  /** So does making only the parents of such a place. */
  lemma ReachedByParents(plan: seq<Edit>, t: Tree, i: nat, k: nat)
    requires AllApart(plan) && i < |plan| && CanPut(t, plan[i].path)
    requires 0 < k < |plan[i].path| && CanPut(t, plan[i].path[..k]) && Lookup(t, plan[i].path[..k]) == None
    ensures Reached(plan, t, WithParents(t, plan[i].path, k))
  {
    hide Lookup, Outline, CanPut, WithParents;
    if Applicable(t, plan) {
      OutlineOfParents(t, plan, i, k);
    }
    forall q | Aside(plan, q) ensures Lookup(WithParents(t, plan[i].path, k), q) == Lookup(t, q) {
      ParentsElsewhere(t, plan[i].path, k, q);
    }
  }

  lemma {:induction false} RemoveElsewhere(t: Tree, p: Path, q: Path)
    requires p != [] && Apart(p, q)
    ensures Lookup(RemoveAt(t, p), q) == Lookup(t, q)
  {
    if t.Dir? && p[0] in t.kids && |p| > 1 && p[0] == q[0] {
      assert p == [p[0]] + p[1..] && q == [q[0]] + q[1..];
      RemoveElsewhere(t.kids[p[0]], p[1..], q[1..]);
    }
  }

  /** What a restore that stops anywhere may have changed: places of its plan, and
      contents it was to load. */
  ghost predicate Within(cfg: Config, tools: Tools, m: Manifest, t: Tree, start: NodeState, now: NodeState)
    requires NamedStacks(m)
  {
    var plan := Plan(cfg, m, t);
    && Reached(plan, start.files, now.files)
    && DbsWithin(Loads(tools, m, t, Apply(start.files, plan)), start.dbs, now.dbs)
    && (!LoadsVault(m, t) ==> now.vault == start.vault)
  }

  ghost predicate DbsWithin(loads: seq<Load>, start: map<string, Data>, now: map<string, Data>)
  {
    forall db :: SameDb(start, now, db) || IsLoaded(loads, db)
  }

  /** Retry: once a later run completes, it does not matter where an earlier one
      stopped; the result is that of one uninterrupted run. */
  lemma RetryConverges(cfg: Config, tools: Tools, m: Manifest, t: Tree, start: NodeState, stopped: NodeState)
    requires NamedStacks(m) && AllApart(Plan(cfg, m, t))
    requires Within(cfg, tools, m, t, start, stopped)
    requires Applicable(start.files, Plan(cfg, m, t))
    requires AllLoadable(tools, m, t, Apply(start.files, Plan(cfg, m, t)))
    ensures Goal(cfg, tools, m, t, stopped) == Goal(cfg, tools, m, t, start)
  {
    hide Lookup, Outline, DumpValue, VaultValue, LoadsVault, Loads, LoadAll, Plan;
    var plan := Plan(cfg, m, t);
    ApplyDependsOnOutline(stopped.files, start.files, plan);
    var loads := Loads(tools, m, t, Apply(start.files, plan));
    var a, b := LoadAll(stopped.dbs, loads), LoadAll(start.dbs, loads);
    forall db ensures SameDb(a, b, db) {
      assert SameDb(start.dbs, stopped.dbs, db) || IsLoaded(loads, db);
      LoadAllAgree(stopped.dbs, start.dbs, loads, db);
    }
    SameEverywhere(a, b);
  }

  lemma SameEverywhere(a: map<string, Data>, b: map<string, Data>)
    requires forall db :: SameDb(a, b, db)
    ensures a == b
  {
    assert forall db :: db in a.Keys ==> SameDb(a, b, db);
    assert forall db :: db in b.Keys ==> SameDb(a, b, db);
    assert a.Keys == b.Keys;
  }

  /** The same after any number of attempts that stopped. */
  lemma WithinOn(cfg: Config, tools: Tools, m: Manifest, t: Tree, a: NodeState, b: NodeState, c: NodeState)
    requires NamedStacks(m) && AllApart(Plan(cfg, m, t)) && Applicable(a.files, Plan(cfg, m, t))
    requires Within(cfg, tools, m, t, a, b) && Within(cfg, tools, m, t, b, c)
    ensures Within(cfg, tools, m, t, a, c)
  {
    hide Lookup, Outline, CanPut, LoadsVault, Loads, Plan;
    var plan := Plan(cfg, m, t);
    ReachedOn(plan, a.files, b.files, c.files);
    ApplyDependsOnOutline(b.files, a.files, plan);
    var loads := Loads(tools, m, t, Apply(a.files, plan));
    forall db ensures SameDb(a.dbs, c.dbs, db) || IsLoaded(loads, db) {
      assert SameDb(a.dbs, b.dbs, db) || IsLoaded(loads, db);
      assert SameDb(b.dbs, c.dbs, db) || IsLoaded(loads, db);
    }
  }

  // ------------------------------------------------- the plan's places are apart

  lemma ApartUnder(p: Path, q: Path, s: Path)
    requires Apart(p, q)
    ensures Apart(p + s, q) && Apart(q, p + s)
  {
  }

  predicate AllUnder(edits: seq<Edit>, top: Path)
  {
    forall i :: 0 <= i < |edits| ==> edits[i].path != [] && top <= edits[i].path
  }

  lemma JoinApart(a: seq<Edit>, p: Path, b: seq<Edit>, q: Path)
    requires AllApart(a) && AllApart(b) && AllUnder(a, p) && AllUnder(b, q) && Apart(p, q)
    ensures AllApart(a + b)
  {
    forall i, j | 0 <= i < |a| && 0 <= j < |b| ensures Apart(a[i].path, b[j].path) {
      ApartUnder(p, q, a[i].path[|p|..]);
      assert p + a[i].path[|p|..] == a[i].path;
      ApartUnder(q, a[i].path, b[j].path[|q|..]);
      assert q + b[j].path[|q|..] == b[j].path;
    }
  }

  lemma DefinitionsApart(m: Manifest, t: Tree)
    requires NamedStacks(m) && (m.activeStacks.Some? ==> StrictlySorted(m.activeStacks.value))
    ensures AllApart(DefinitionEdits(m, t)) && AllUnder(DefinitionEdits(m, t), STACKS)
  {
    hide Lookup;
    var e := DefinitionEdits(m, t);
    if m.stackDefinitions && m.activeStacks.Some? {
      SortedIsDistinct(m.activeStacks.value);
      forall i, j | 0 <= i < j < |e| ensures Apart(e[i].path, e[j].path) {
        assert e[i].path[|STACKS|] != e[j].path[|STACKS|];
      }
    }
  }

  lemma {:induction false} HarborPlace(t: Tree, parts: seq<Path>, i: nat) returns (k: nat)
    requires forall j :: 0 <= j < |parts| ==> parts[j] != []
    requires i < |HarborEdits(t, parts)|
    ensures k < |parts| && HarborEdits(t, parts)[i].path == HARBOR_FILES + parts[k] && HarborSource(t, parts[k]).Some?
    decreases |parts|
  {
    hide HarborSource;
    var n := |parts| - 1;
    if i < |HarborEdits(t, parts[..n])| {
      k := HarborPlace(t, parts[..n], i);
      assert parts[..n][k] == parts[k];
    } else {
      k := n;
    }
  }

  lemma {:induction false} HarborApart(t: Tree, parts: seq<Path>)
    requires forall i :: 0 <= i < |parts| ==> parts[i] != []
    requires forall i, j :: 0 <= i < j < |parts| ==> Apart(parts[i], parts[j])
    ensures AllApart(HarborEdits(t, parts)) && AllUnder(HarborEdits(t, parts), HARBOR_FILES)
    decreases |parts|
  {
    hide HarborSource, Apart, AllApart, AllUnder;
    NoneApart();
    if parts != [] {
      var n := |parts| - 1;
      HarborApart(t, parts[..n]);
      var rest := HarborEdits(t, parts[..n]);
      forall i | 0 <= i < |rest| ensures Apart(rest[i].path, HARBOR_FILES + parts[n]) {
        var k := HarborPlace(t, parts[..n], i);
        SameTop(HARBOR_FILES, parts[k], parts[n]);
      }
      if HarborSource(t, parts[n]).Some? {
        AppendApart(rest, Edit(HARBOR_FILES + parts[n], HarborSource(t, parts[n]).value), HARBOR_FILES);
      } else {
        assert HarborEdits(t, parts) == rest;
      }
    }
  }

  lemma NoneApart()
    ensures AllApart([]) && AllUnder([], HARBOR_FILES)
  {
  }

  lemma AppendApart(edits: seq<Edit>, e: Edit, top: Path)
    requires AllApart(edits) && AllUnder(edits, top) && e.path != [] && top <= e.path
    requires forall i :: 0 <= i < |edits| ==> Apart(edits[i].path, e.path)
    ensures AllApart(edits + [e]) && AllUnder(edits + [e], top)
  {
    hide Apart;
  }

  lemma SameTop(top: Path, p: Path, q: Path)
    requires Apart(p, q)
    ensures Apart(top + p, top + q)
  {
    assert (top + p)[|top|..] == p && (top + q)[|top|..] == q;
  }

  lemma HarborOrderApart()
    ensures forall i :: 0 <= i < |HARBOR_ORDER| ==> HARBOR_ORDER[i] != []
    ensures forall i, j :: 0 <= i < j < |HARBOR_ORDER| ==> Apart(HARBOR_ORDER[i], HARBOR_ORDER[j])
  {
    var a: Path, b: Path, c: Path, d: Path := ["registry"], ["core"], ["job_logs"], ["trivy-adapter", "reports"];
    assert a[0] != b[0] && a[0] != c[0] && a[0] != d[0] && b[0] != c[0] && b[0] != d[0] && c[0] != d[0];
    assert HARBOR_ORDER == [a, b, c, d];
  }

  /** No two places of a plan lie on or below each other. */
  lemma PlanApart(cfg: Config, m: Manifest, t: Tree)
    requires NamedStacks(m) && GoodLayout(cfg)
    requires m.activeStacks.Some? ==> StrictlySorted(m.activeStacks.value)
    ensures AllApart(Plan(cfg, m, t))
  {
    hide Lookup, DefinitionEdits, HarborEdits, HarborSource, Includes;
    DefinitionsApart(m, t);
    HarborOrderApart();
    HarborApart(t, HARBOR_ORDER);
    var defs, gitea := DefinitionEdits(m, t), GiteaEdits(cfg, m, t);
    var harbor := if HasHarborData(m, t) then HarborEdits(t, HARBOR_ORDER) else [];
    var g := if gitea == [] then cfg.giteaStack else gitea[0].path;
    GiteaPlace(cfg, m, t);
    ApartUnder(cfg.giteaStack, STACKS, [GITEA_ENTRY]);
    ApartUnder(cfg.giteaStack, HARBOR_FILES, [GITEA_ENTRY]);
    FixedApart();
    JoinApart(gitea, g, harbor, HARBOR_FILES);
    JoinApart(defs, STACKS, gitea, g);
    JoinApart(defs, STACKS, harbor, HARBOR_FILES);
    ThreeApart(defs, gitea, harbor);
  }

  lemma FixedApart()
    ensures Apart(STACKS, HARBOR_FILES) && Apart(STACKS, GITEA_FILES) && Apart(GITEA_FILES, HARBOR_FILES)
    ensures Apart(HARBOR_FILES, STACKS) && Apart(GITEA_FILES, STACKS) && Apart(HARBOR_FILES, GITEA_FILES)
    ensures Apart(ENV, STACKS) && Apart(ENV, GITEA_FILES) && Apart(ENV, HARBOR_FILES)
  {
    assert STACKS[0] != HARBOR_FILES[0] && STACKS[0] != GITEA_FILES[0] && GITEA_FILES[1] != HARBOR_FILES[1];
    assert ENV[0] != STACKS[0] && ENV[0] != GITEA_FILES[0] && ENV[0] != HARBOR_FILES[0];
  }

  lemma GiteaPlace(cfg: Config, m: Manifest, t: Tree)
    requires cfg.giteaStack != []
    ensures |GiteaEdits(cfg, m, t)| <= 1
    ensures GiteaEdits(cfg, m, t) != [] ==>
      GiteaEdits(cfg, m, t)[0].path == cfg.giteaStack + [GITEA_ENTRY] || GiteaEdits(cfg, m, t)[0].path == GITEA_FILES
  {
    hide Lookup, Includes;
  }

  lemma ThreeApart(a: seq<Edit>, b: seq<Edit>, c: seq<Edit>)
    requires AllApart(a + b) && AllApart(b + c) && AllApart(a + c)
    ensures AllApart(a + b + c)
  {
    var e := a + b + c;
    forall i | 0 <= i < |e| ensures e[i].path != [] {
      if i < |a| + |b| { assert e[i] == (a + b)[i]; } else { assert e[i] == (b + c)[i - |a|]; }
    }
    forall i, j | 0 <= i < j < |e| ensures Apart(e[i].path, e[j].path) {
      if j < |a| + |b| {
        assert e[i] == (a + b)[i] && e[j] == (a + b)[j];
      } else if i >= |a| {
        assert e[i] == (b + c)[i - |a|] && e[j] == (b + c)[j - |a|];
      } else {
        assert e[i] == (a + c)[i] && e[j] == (a + c)[j - |b|];
      }
    }
  }
}
