/** Restic repositories: their configuration, delivery to them, the choice of a
    parent snapshot. */
module Repositories {
  import opened Text
  import opened Trees
  import opened Listing
  import opened Manifests
  import opened Hosts
  import opened Retention
  import opened RepoVariables

  /** `values` holds each repository's variables, keyed by sanitized id. */
  datatype ResticConfig = ResticConfig(
    repositories: seq<string>, repository: string, password: string,
    values: map<string, map<string, string>>,
    initialize: bool, requireSecure: bool, requireRemote: bool)

  // -------------------------------------------------------------- loading

  function Upper(c: char): char
  {
    if 'a' <= c <= 'z' then (c as int - 'a' as int + 'A' as int) as char else c
  }

  function Sanitized(id: string): (s: string)
    ensures |s| == |id|
  {
    seq(|id|, i requires 0 <= i < |id| =>
      var c := Upper(id[i]);
      if 'A' <= c <= 'Z' || '0' <= c <= '9' || c == '_' then c else '_')
  }

  function Cell(table: map<string, map<string, string>>, id: string, name: string): Option<string>
  {
    if id in table && name in table[id] then Some(table[id][name]) else None
  }

  /** The variable `name` of repository `id`, as the environment gives it. */
  function Given(values: map<string, string>, prefixes: seq<string>, id: string, name: string): Option<string>
  {
    if name in prefixes && id != "" && name + "_" + id in values then Some(values[name + "_" + id]) else None
  }

  function GivenOutside(values: map<string, string>, prefixes: seq<string>, rest: set<string>, id: string,
                        name: string): Option<string>
  {
    if name + "_" + id in rest then None else Given(values, prefixes, id, name)
  }

  ghost predicate FilledExcept(values: map<string, string>, prefixes: seq<string>, rest: set<string>,
                               table: map<string, map<string, string>>)
  {
    forall id, name :: Cell(table, id, name) == GivenOutside(values, prefixes, rest, id, name)
  }

  /** The loop that fills the table, over the variables in any order. Each cell
      comes from exactly one variable, so the order leaves no trace. */
  method RepoValues(values: map<string, string>,
                    prefixes: seq<string>) returns (table: map<string, map<string, string>>)
    requires Invertible(prefixes)
    ensures forall id, name :: Cell(table, id, name) == Given(values, prefixes, id, name)
  {
    hide LongestSplit, Invertible;
    table := map[];
    var rest := values.Keys;
    while rest != {}
      invariant rest <= values.Keys
      invariant FilledExcept(values, prefixes, rest, table)
      decreases rest
    {
      var key :| key in rest;
      var found, suffix := SplitRepoVar(prefixes, key);
      ghost var before := table;
      if found.Some? {
        var row := if suffix in table then table[suffix] else map[];
        table := table[suffix := row[found.value := values[key]]];
      }
      forall id, name
        ensures Cell(table, id, name) == GivenOutside(values, prefixes, rest - {key}, id, name)
      {
        OneVariable(values, prefixes, key, found, suffix, id, name);
        assert Cell(before, id, name) == GivenOutside(values, prefixes, rest, id, name);
      }
      rest := rest - {key};
    }
  }

  /** A variable fills the cell it names and no other. */
  lemma OneVariable(values: map<string, string>, prefixes: seq<string>, key: string, found: Option<string>,
                    suffix: string,
                    id: string, name: string)
    requires Invertible(prefixes) && key in values && LongestSplit(prefixes, key, found)
    requires found.Some? ==> key == found.value + "_" + suffix && suffix != ""
    ensures found.Some? ==> found.value in prefixes
    ensures name + "_" + id == key && name in prefixes && id != "" ==> found == Some(name) && suffix == id
    ensures found == Some(name) && suffix == id ==> name + "_" + id == key && Given(values, prefixes, id, name) == Some(values[key])
    ensures name + "_" + id == key && !(found == Some(name) && suffix == id) ==> Given(values, prefixes, id, name) == None
  {
    if name + "_" + id == key && name in prefixes && id != "" {
      assert LongestSplit(prefixes, name + "_" + id, found);
      assert found == Some(name);
      assert key[|name| + 1..] == suffix && key[|name| + 1..] == id;
    }
  }

  // -------------------------------------------------------------- remoteness

  predicate IsRemote(repository: string)
  {
    && repository != "" && repository[0] != '/' && repository[0] != '.'
    && !("file:" <= repository) && ':' in repository
  }

  function URL(cfg: ResticConfig, id: string): string
  {
    var c := Cell(cfg.values, Sanitized(id), "RESTIC_REPOSITORY");
    if c.Some? then c.value else ""
  }

  function Password(cfg: ResticConfig, id: string): string
  {
    var c := Cell(cfg.values, Sanitized(id), "RESTIC_PASSWORD");
    if c.Some? then c.value else ""
  }

  predicate SomeNamedRemote(cfg: ResticConfig)
  {
    exists i :: 0 <= i < |cfg.repositories| && IsRemote(URL(cfg, cfg.repositories[i]))
  }

  method HasRemoteRepository(cfg: ResticConfig) returns (r: bool)
    ensures r <==> SomeNamedRemote(cfg) || IsRemote(cfg.repository)
  {
    var k := 0;
    while k < |cfg.repositories|
      invariant 0 <= k <= |cfg.repositories|
      invariant forall i :: 0 <= i < k ==> !IsRemote(URL(cfg, cfg.repositories[i]))
    {
      if IsRemote(URL(cfg, cfg.repositories[k])) {
        return true;
      }
      k := k + 1;
    }
    return IsRemote(cfg.repository);
  }

  /** The repositories a delivery goes to: the named ones, or else the legacy one. */
  function Visited(cfg: ResticConfig): set<string>
  {
    if cfg.repositories != [] then set i | 0 <= i < |cfg.repositories| :: URL(cfg, cfg.repositories[i])
    else if cfg.repository != "" then {cfg.repository}
    else {}
  }

  predicate DeliveredRemotely(cfg: ResticConfig)
  {
    exists r :: r in Visited(cfg) && IsRemote(r)
  }

  /** Reporting remote delivery means that a non-local repository was visited,
      except when repositories are named, none of them is remote and the legacy
      one, which is then not visited, is. */
  lemma RemoteClaimExactly(cfg: ResticConfig)
    ensures (SomeNamedRemote(cfg) || IsRemote(cfg.repository) ==> DeliveredRemotely(cfg)) <==>
      (cfg.repositories == [] || !IsRemote(cfg.repository) || SomeNamedRemote(cfg))
  {
    if cfg.repositories != [] {
      if SomeNamedRemote(cfg) {
        var i :| 0 <= i < |cfg.repositories| && IsRemote(URL(cfg, cfg.repositories[i]));
        assert URL(cfg, cfg.repositories[i]) in Visited(cfg);
      }
    } else if IsRemote(cfg.repository) {
      assert cfg.repository in Visited(cfg);
    }
  }

  predicate StartsWithAny(repo: string, starts: seq<string>)
  {
    exists i :: 0 <= i < |starts| && starts[i] <= repo
  }

  const SECURE: seq<string> :=
    ["/", ".", "sftp:", "rest:https://", "s3:s3.", "s3:https://", "swift:", "b2:", "azure:", "gs:"]

  /** `validateSecureRepository` accepts: a local path, or a scheme that is on the list. */
  predicate SecureEnough(repo: string, requireSecure: bool)
  {
    !requireSecure || ':' !in repo || StartsWithAny(repo, SECURE)
  }

  // ---------------------------------------------------------------- delivery

  /** What is sent: a verified directory of the current format under its own id,
      or, for anything older, the bare paths. */
  datatype Spec = Spec(backupID: string, relative: bool)

  /** An accepted directory of the current format under its own id. */
  ghost predicate Current(codec: Codec, base: string, t: Tree)
  {
    && Accepted(codec, t) && ValidID(base)
    && ReadManifest(codec, t).value.version == CURRENT_VERSION && ReadManifest(codec, t).value.id == base
  }

  method NewSpec(codec: Codec, base: string, t: Tree) returns (spec: Option<Spec>)
    ensures spec.Some? ==> spec.value.backupID == if ValidID(base) then base else ""
    ensures spec.Some? && spec.value.relative ==>
      Accepted(codec, t) && ReadManifest(codec, t).value.id == spec.value.backupID
    ensures Accepted(codec, t) && ReadManifest(codec, t).value.version == CURRENT_VERSION ==>
      (spec.Some? <==> Current(codec, base, t))
  {
    hide Sound;
    var id := if ValidID(base) then base else "";
    var m := ReadManifest(codec, t);
    if m.None? {
      return if IsFileAt(t, [MANIFEST]) then None else Some(Spec(id, false));
    }
    if m.value.version != CURRENT_VERSION {
      return Some(Spec(id, false));
    }
    AcceptedHasID(codec, t);
    var verified := Verify(codec, t);
    if verified.None? || verified.value.id != id {
      return None;
    }
    return Some(Spec(id, true));
  }

  lemma AcceptedHasID(codec: Codec, t: Tree)
    requires ReadManifest(codec, t).Some?
    ensures Accepted(codec, t) ==> ReadManifest(codec, t).value.id != ""
  {
  }

  /** What deliveries of `id` to these repositories may do to all snapshots: add those
      of `id`, and forget others of the same repositories. */
  ghost predicate Touched(repos: set<string>, id: string, before: set<(string, string)>, after: set<(string, string)>)
  {
    && (forall s :: s in after && s !in before ==> s.0 in repos && s.1 == id)
    && (forall s :: s in before && s !in after ==> s.0 in repos && s.1 != id)
  }

  /** `restic forget` with the retention arguments: any of the repository's snapshots
      may go, but not the newest, which is the one just delivered. */
  method Forget(h: Host, repo: string, id: string) returns (ok: bool)
    modifies h`faults, h`snapshots
    ensures h.faults == old(h.faults) + if ok then 0 else 1
    ensures h.snapshots <= old(h.snapshots) && Touched({repo}, id, old(h.snapshots), h.snapshots)
  {
    ok := h.Attempt();
    var gone: set<(string, string)> := *;
    h.snapshots := h.snapshots - (set s | s in gone && s.0 == repo && s.1 != id);
  }

  /** One repository, once its address and password are settled: initialize when
      needed, find a parent, back up, look the snapshot up again, forget old ones. */
  method Deliver(h: Host, cfg: ResticConfig, repo: string, password: string, spec: Spec) returns (ok: bool)
    modifies h`faults, h`snapshots
    ensures h.faults >= old(h.faults)
    ensures Touched({repo}, spec.backupID, old(h.snapshots), h.snapshots)
    ensures ok ==> (repo, spec.backupID) in h.snapshots
    ensures ok ==> repo != "" && password != "" && SecureEnough(repo, cfg.requireSecure)
    ensures h.faults == old(h.faults) && repo != "" && password != "" && SecureEnough(repo, cfg.requireSecure) ==> ok
  {
    hide SecureEnough;
    if repo == "" || password == "" || !SecureEnough(repo, cfg.requireSecure) {
      return false;
    }
    if cfg.initialize {
      ok := h.Attempt();
      if !ok { return; }
    }
    if spec.relative {
      ok := h.Attempt();
      if !ok { return; }
    }
    ok := h.Attempt();
    var stored := *;
    if ok || stored {
      h.snapshots := h.snapshots + {(repo, spec.backupID)};
    }
    if !ok { return; }
    ok := h.Attempt();
    if !ok { return; }
    ok := Forget(h, repo, spec.backupID);
  }

  /** Address, password and transport are settled for every repository visited. */
  predicate Usable(cfg: ResticConfig)
  {
    if cfg.repositories == [] then Reachable(cfg.repository, cfg.password, cfg.requireSecure)
    else forall i :: 0 <= i < |cfg.repositories| ==>
      Reachable(URL(cfg, cfg.repositories[i]), Password(cfg, cfg.repositories[i]), cfg.requireSecure)
  }

  predicate Reachable(repo: string, password: string, requireSecure: bool)
  {
    repo != "" && password != "" && SecureEnough(repo, requireSecure)
  }

  /** `RunRestic` for one directory. Success means a snapshot in every repository
      visited; the first failure stops the loop. */
  method RunRestic(h: Host, cfg: ResticConfig, codec: Codec, base: string, t: Tree) returns (ok: bool, remote: bool)
    modifies h`faults, h`snapshots
    ensures h.faults >= old(h.faults)
    ensures Touched(Visited(cfg), if ValidID(base) then base else "", old(h.snapshots), h.snapshots)
    ensures ok && cfg.requireRemote ==>
      forall r :: r in Visited(cfg) ==> (r, if ValidID(base) then base else "") in h.snapshots
    ensures remote ==> ok && (SomeNamedRemote(cfg) || IsRemote(cfg.repository))
    ensures ok && cfg.requireRemote && (SomeNamedRemote(cfg) || IsRemote(cfg.repository)) ==> remote
    ensures h.faults == old(h.faults) && Usable(cfg) && Current(codec, base, t) ==> ok
  {
    hide SecureEnough, Sanitized, Sound;
    remote := false;
    var installed := h.Attempt();
    if !installed {
      return !cfg.requireRemote, false;
    }
    var spec := NewSpec(codec, base, t);
    if spec.None? {
      return false, false;
    }
    if cfg.repositories != [] {
      ok := DeliverToAll(h, cfg, spec.value);
    } else if cfg.repository != "" {
      ok := Deliver(h, cfg, cfg.repository, cfg.password, spec.value);
    } else {
      return true, false;
    }
    if ok {
      remote := HasRemoteRepository(cfg);
    }
  }

  method DeliverToAll(h: Host, cfg: ResticConfig, spec: Spec) returns (ok: bool)
    requires cfg.repositories != []
    modifies h`faults, h`snapshots
    ensures h.faults >= old(h.faults)
    ensures Touched(Visited(cfg), spec.backupID, old(h.snapshots), h.snapshots)
    ensures ok ==> forall r :: r in Visited(cfg) ==> (r, spec.backupID) in h.snapshots
    ensures h.faults == old(h.faults) && Usable(cfg) ==> ok
  {
    hide SecureEnough, Sanitized, URL, Password;
    var k := 0;
    while k < |cfg.repositories|
      invariant 0 <= k <= |cfg.repositories|
      invariant h.faults >= old(h.faults)
      invariant Touched(Visited(cfg), spec.backupID, old(h.snapshots), h.snapshots)
      invariant forall i :: 0 <= i < k ==> (URL(cfg, cfg.repositories[i]), spec.backupID) in h.snapshots
    {
      var id := cfg.repositories[k];
      assert URL(cfg, id) in Visited(cfg);
      ok := Deliver(h, cfg, URL(cfg, id), Password(cfg, id), spec);
      if !ok {
        return;
      }
      k := k + 1;
    }
    ok := true;
  }

  // ------------------------------------------------------------ parent choice

  datatype Snapshot = Snapshot(id: string, time: Time)

  /** Later, or equally late with the greater id. */
  predicate Newer(a: Snapshot, b: Snapshot)
  {
    a.time > b.time || (a.time == b.time && Less(b.id, a.id))
  }

  predicate ValidSnapshots(s: seq<Snapshot>)
  {
    forall i :: 0 <= i < |s| ==> s[i].id != "" && s[i].time != 0
  }

  /** The latest snapshot of `s`, or none. */
  predicate IsLatest(s: seq<Snapshot>, id: string)
  {
    exists i :: 0 <= i < |s| && s[i].id == id && forall j :: 0 <= j < |s| ==> s[j] == s[i] || Newer(s[i], s[j])
  }

  /** `latestCompatibleParent`: None for an inventory with an invalid entry. The
      search starts from the zero instant, so instants before it are never chosen. */
  method LatestCompatibleParent(s: seq<Snapshot>) returns (parent: Option<string>)
    ensures parent.Some? <==> ValidSnapshots(s)
    ensures parent.Some? ==> if exists i :: 0 <= i < |s| && s[i].time > 0 then IsLatest(s, parent.value) else parent.value == ""
  {
    var latest := Snapshot("", 0);
    ghost var at := -1;
    var k := 0;
    while k < |s|
      invariant 0 <= k <= |s|
      invariant ValidSnapshots(s[..k])
      invariant -1 <= at < k
      invariant at == -1 ==> latest == Snapshot("", 0) && forall j :: 0 <= j < k ==> s[j].time < 0
      invariant at >= 0 ==> s[at] == latest && latest.time > 0 && forall j :: 0 <= j < k ==> s[j] == latest || Newer(latest, s[j])
    {
      var next := s[k];
      if next.id == "" || next.time == 0 {
        return None;
      }
      LessTotal(next.id, latest.id);
      if Newer(next, latest) {
        forall j | 0 <= j < k && at >= 0 ensures s[j] == next || Newer(next, s[j]) {
          NewerTransitive(next, latest, s[j]);
        }
        latest, at := next, k;
      }
      k := k + 1;
    }
    assert s[..|s|] == s;
    return Some(latest.id);
  }

  lemma NewerTransitive(a: Snapshot, b: Snapshot, c: Snapshot)
    requires Newer(a, b)
    ensures Newer(b, c) ==> Newer(a, c)
  {
    if Newer(b, c) && a.time == b.time && b.time == c.time {
      LessTransitive(c.id, b.id, a.id);
    }
  }

  /** The choice depends on the inventory's entries only, not on their order. */
  lemma ParentIgnoresOrder(a: seq<Snapshot>, b: seq<Snapshot>, x: string, y: string)
    requires multiset(a) == multiset(b) && IsLatest(a, x) && IsLatest(b, y)
    ensures x == y
  {
    var i :| 0 <= i < |a| && a[i].id == x && forall j :: 0 <= j < |a| ==> a[j] == a[i] || Newer(a[i], a[j]);
    var k :| 0 <= k < |b| && b[k].id == y && forall j :: 0 <= j < |b| ==> b[j] == b[k] || Newer(b[k], b[j]);
    assert a[i] in multiset(b) && b[k] in multiset(a);
    var j :| 0 <= j < |b| && b[j] == a[i];
    var m :| 0 <= m < |a| && a[m] == b[k];
    if a[i] != b[k] {
      LessTransitive(a[i].id, b[k].id, a[i].id);
      LessIrreflexive(a[i].id);
    }
  }
}
