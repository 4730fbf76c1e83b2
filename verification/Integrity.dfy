/** The weekly integrity check: every repository is read back one quarter at a
    time, and pruned only after all of them were read. */
module Integrity {
  import opened Text
  import opened Repositories

  datatype Repo = Named(id: string) | Legacy

  datatype Event = Checked(repo: Repo, part: int) | Pruned(repo: Repo)

  const PARTS := 4

  /** The stored number of the quarter to read next; no file means the first. */
  function Part(stored: Option<int>): int
  {
    if stored.None? then 1 else stored.value
  }

  predicate ValidPart(p: int) { 1 <= p <= PARTS }

  function NextPart(p: int): int { p % PARTS + 1 }

  function NamedRepos(cfg: ResticConfig): (r: seq<Repo>)
    ensures |r| == |cfg.repositories|
  {
    seq(|cfg.repositories|, i requires 0 <= i < |cfg.repositories| => Named(cfg.repositories[i]))
  }

  /** Unlike a delivery, a check visits the legacy repository besides the named ones. */
  function Repos(cfg: ResticConfig): seq<Repo>
  {
    NamedRepos(cfg) + if cfg.repository != "" then [Legacy] else []
  }

  function Checks(repos: seq<Repo>, part: int): (e: seq<Event>)
    ensures |e| == |repos|
  {
    seq(|repos|, i requires 0 <= i < |repos| => Checked(repos[i], part))
  }

  function Prunes(repos: seq<Repo>): (e: seq<Event>)
    ensures |e| == |repos|
  {
    seq(|repos|, i requires 0 <= i < |repos| => Pruned(repos[i]))
  }

  /** Everything a complete run does, in order. */
  function FullRun(cfg: ResticConfig, part: int): seq<Event>
  {
    Checks(Repos(cfg), part) + Prunes(Repos(cfg))
  }

  lemma ChecksGrow(repos: seq<Repo>, part: int, k: nat)
    requires k < |repos|
    ensures Checks(repos[..k + 1], part) == Checks(repos[..k], part) + [Checked(repos[k], part)]
    ensures Prunes(repos[..k + 1]) == Prunes(repos[..k]) + [Pruned(repos[k])]
  {
  }

  lemma ChecksBegin(repos: seq<Repo>, part: int, k: nat)
    requires k <= |repos|
    ensures Checks(repos[..k], part) <= Checks(repos, part)
    ensures Prunes(repos[..k]) <= Prunes(repos)
  {
  }

  /** Whether a repository may be checked at all. */
  predicate Checkable(cfg: ResticConfig, r: Repo)
  {
    match r
    case Named(id) => URL(cfg, id) != "" && Password(cfg, id) != "" && SecureEnough(URL(cfg, id), cfg.requireSecure)
    case Legacy => cfg.password != ""
  }

  predicate AllCheckable(cfg: ResticConfig)
  {
    forall i :: 0 <= i < |Repos(cfg)| ==> Checkable(cfg, Repos(cfg)[i])
  }

  class Maintenance {
    var stored: Option<int>   // the state file
    var log: seq<Event>       // checks that succeeded and prunes that were issued
    ghost var faults: nat

    method Attempt() returns (ok: bool)
      modifies this`faults
      ensures faults == old(faults) + if ok then 0 else 1
    {
      ok := *;
      if !ok {
        faults := faults + 1;
      }
    }

    method CheckAll(cfg: ResticConfig, part: int) returns (ok: bool)
      modifies this`log, this`faults
      ensures faults >= old(faults)
      ensures exists k :: 0 <= k <= |Repos(cfg)| && log == old(log) + Checks(Repos(cfg)[..k], part)
      ensures ok ==> log == old(log) + Checks(Repos(cfg), part)
      ensures faults == old(faults) && AllCheckable(cfg) ==> ok
    {
      hide Checkable;
      var repos := Repos(cfg);
      var k := 0;
      while k < |repos|
        invariant 0 <= k <= |repos|
        invariant faults >= old(faults)
        invariant log == old(log) + Checks(repos[..k], part)
      {
        if !Checkable(cfg, repos[k]) {
          return false;
        }
        ok := Attempt();
        if !ok {
          return;
        }
        ChecksGrow(repos, part, k);
        log := log + [Checked(repos[k], part)];
        k := k + 1;
      }
      assert repos[..|repos|] == repos;
      ok := true;
    }

    method PruneAll(cfg: ResticConfig) returns (ok: bool)
      modifies this`log, this`faults
      ensures faults >= old(faults)
      ensures exists k :: 0 <= k <= |Repos(cfg)| && log == old(log) + Prunes(Repos(cfg)[..k])
      ensures ok ==> log == old(log) + Prunes(Repos(cfg))
      ensures faults == old(faults) ==> ok
    {
      var repos := Repos(cfg);
      var k := 0;
      while k < |repos|
        invariant 0 <= k <= |repos|
        invariant faults >= old(faults)
        invariant log == old(log) + Prunes(repos[..k])
      {
        ChecksGrow(repos, 0, k);
        log := log + [Pruned(repos[k])];
        k := k + 1;
        ok := Attempt();
        if !ok {
          return;
        }
      }
      assert repos[..|repos|] == repos;
      ok := true;
    }

    /** `CheckRestic`: whatever fails, what was done is a beginning of the complete
        run, and the stored quarter moves on only after all of it. */
    method CheckRestic(cfg: ResticConfig) returns (ok: bool, ghost events: seq<Event>)
      modifies this
      ensures faults >= old(faults)
      ensures log == old(log) + events && events <= FullRun(cfg, Part(old(stored)))
      ensures ok && Repos(cfg) != [] ==>
        events == FullRun(cfg, Part(old(stored))) && stored == Some(NextPart(Part(old(stored))))
      ensures !ok || Repos(cfg) == [] ==> stored == old(stored)
      ensures Repos(cfg) != [] && !ValidPart(Part(old(stored))) ==> !ok && events == []
      ensures faults == old(faults) && ValidPart(Part(old(stored))) && AllCheckable(cfg) ==> ok
    {
      hide Checks, Prunes, Repos, AllCheckable;
      events := [];
      ok := Attempt();
      if !ok || Repos(cfg) == [] {
        return;
      }
      var readable := Attempt();
      var part := Part(stored);
      if !readable || !ValidPart(part) {
        return false, events;
      }
      ok := CheckAll(cfg, part);
      ghost var k :| 0 <= k <= |Repos(cfg)| && log == old(log) + Checks(Repos(cfg)[..k], part);
      ChecksBegin(Repos(cfg), part, k);
      events := if ok then Checks(Repos(cfg), part) else Checks(Repos(cfg)[..k], part);
      if !ok {
        return;
      }
      ghost var checked := log;
      ok := PruneAll(cfg);
      ghost var m :| 0 <= m <= |Repos(cfg)| && log == checked + Prunes(Repos(cfg)[..m]);
      ChecksBegin(Repos(cfg), part, m);
      events := events + if ok then Prunes(Repos(cfg)) else Prunes(Repos(cfg)[..m]);
      if !ok {
        return;
      }
      ok := Attempt();
      if ok {
        stored := Some(NextPart(part));
      }
    }

    /** Any number of runs with the same repositories. */
    method RepeatChecks(cfg: ResticConfig, times: nat) returns (ghost runs: seq<Run>)
      requires Repos(cfg) != [] && ValidPart(Part(stored))
      modifies this
      ensures |runs| == times && History(cfg, Part(old(stored)), runs)
      ensures Part(stored) == PartAfter(Part(old(stored)), runs)
      ensures log == old(log) + AllEvents(runs)
    {
      hide History, PartAfter, AllEvents, FullRun;
      runs := [];
      NoHistory(cfg, Part(stored));
      var k := 0;
      while k < times
        invariant 0 <= k <= times && |runs| == k
        invariant ValidPart(Part(stored))
        invariant History(cfg, Part(old(stored)), runs)
        invariant Part(stored) == PartAfter(Part(old(stored)), runs)
        invariant log == old(log) + AllEvents(runs)
      {
        ghost var part, before := Part(stored), log;
        var ok;
        ghost var events;
        ok, events := CheckRestic(cfg);
        HistoryGrows(cfg, Part(old(stored)), runs, Run(part, ok, events));
        runs := runs + [Run(part, ok, events)];
        k := k + 1;
      }
    }
  }

  // -------------------------------------------------------------- over runs

  datatype Run = Run(part: int, ok: bool, events: seq<Event>)

  predicate IsRun(cfg: ResticConfig, r: Run)
  {
    r.events <= FullRun(cfg, r.part) && (r.ok ==> r.events == FullRun(cfg, r.part))
  }

  function PartAfter(start: int, runs: seq<Run>): int
  {
    if runs == [] then start
    else
      var before := PartAfter(start, runs[..|runs| - 1]);
      if runs[|runs| - 1].ok then NextPart(before) else before
  }

  function AllEvents(runs: seq<Run>): seq<Event>
  {
    if runs == [] then [] else AllEvents(runs[..|runs| - 1]) + runs[|runs| - 1].events
  }

  predicate History(cfg: ResticConfig, start: int, runs: seq<Run>)
  {
    forall k :: 0 <= k < |runs| ==> IsRun(cfg, runs[k]) && runs[k].part == PartAfter(start, runs[..k])
  }

  lemma NoHistory(cfg: ResticConfig, start: int)
    ensures History(cfg, start, []) && PartAfter(start, []) == start && AllEvents([]) == []
  {
  }

  lemma HistoryGrows(cfg: ResticConfig, start: int, runs: seq<Run>, r: Run)
    requires History(cfg, start, runs) && IsRun(cfg, r) && r.part == PartAfter(start, runs)
    ensures History(cfg, start, runs + [r])
    ensures PartAfter(start, runs + [r]) == if r.ok then NextPart(r.part) else r.part
    ensures AllEvents(runs + [r]) == AllEvents(runs) + r.events
  {
    hide IsRun;
    var next := runs + [r];
    assert next[..|runs|] == runs;
    forall k | 0 <= k < |next| ensures IsRun(cfg, next[k]) && next[k].part == PartAfter(start, next[..k]) {
      assert next[..k] == runs[..k];
    }
  }

  function Successes(runs: seq<Run>): nat
  {
    if runs == [] then 0 else Successes(runs[..|runs| - 1]) + if runs[|runs| - 1].ok then 1 else 0
  }

  /** The quarter in line is one plus the successes so far modulo four. */
  lemma {:induction false} PartCountsSuccesses(start: int, runs: seq<Run>)
    requires ValidPart(start)
    ensures PartAfter(start, runs) == 1 + (start - 1 + Successes(runs)) % PARTS
  {
    if runs != [] {
      PartCountsSuccesses(start, runs[..|runs| - 1]);
    }
  }

  /** Whenever a run prunes, it has checked every repository before. */
  lemma PruneAfterAllChecks(cfg: ResticConfig, r: Run, i: nat, repo: Repo)
    requires IsRun(cfg, r) && i < |r.events| && r.events[i].Pruned? && repo in Repos(cfg)
    ensures Checked(repo, r.part) in r.events[..i]
  {
    var repos := Repos(cfg);
    assert r.events[i] == FullRun(cfg, r.part)[i];
    assert i >= |repos|;
    var k :| 0 <= k < |repos| && repos[k] == repo;
    assert r.events[..i][k] == FullRun(cfg, r.part)[k] == Checked(repo, r.part);
  }

  /** Four consecutive successes, failures in between or not, read every quarter
      of every repository. */
  lemma FourSuccessesCover(cfg: ResticConfig, start: int, runs: seq<Run>, at: seq<nat>, repo: Repo, part: int)
    requires ValidPart(start) && History(cfg, start, runs) && repo in Repos(cfg) && ValidPart(part)
    requires |at| == PARTS && forall j :: 0 <= j < PARTS ==> at[j] < |runs| && runs[at[j]].ok
    requires forall j :: 0 <= j < PARTS ==> Successes(runs[..at[j]]) == Successes(runs[..at[0]]) + j
    ensures exists j :: 0 <= j < PARTS && Checked(repo, part) in runs[at[j]].events
  {
    hide History, PartAfter, Successes, FullRun;
    var s := start - 1 + Successes(runs[..at[0]]);
    var j := InLine(s, part);
    PartCountsSuccesses(start, runs[..at[j]]);
    CompleteRun(cfg, start, runs, at[j], repo);
  }

  /** The turn at which a quarter comes next. */
  lemma InLine(s: int, part: int) returns (j: nat)
    requires ValidPart(part)
    ensures j < PARTS && 1 + (s + j) % PARTS == part
  {
    j := (part - 1 - s) % PARTS;
  }

  lemma CompleteRun(cfg: ResticConfig, start: int, runs: seq<Run>, k: nat, repo: Repo)
    requires History(cfg, start, runs) && k < |runs| && runs[k].ok && repo in Repos(cfg)
    ensures Checked(repo, PartAfter(start, runs[..k])) in runs[k].events
  {
    hide PartAfter;
    var repos := Repos(cfg);
    var i :| 0 <= i < |repos| && repos[i] == repo;
    assert runs[k].events[i] == Checked(repo, runs[k].part);
  }
}
