/** Active stacks: their names, their canonical list, membership in it, and the
    order in which a restore stops and starts them. */
module StackScope {
  import opened Text
  import opened Trees

  predicate NameStart(c: char) { 'a' <= c <= 'z' || '0' <= c <= '9' }
  predicate NameChar(c: char) { NameStart(c) || c == '_' || c == '-' }

  /** The pattern `^[a-z0-9][a-z0-9_-]*$`. */
  predicate ValidName(s: string)
  {
    s != "" && NameStart(s[0]) && forall i :: 0 <= i < |s| ==> NameChar(s[i])
  }

  lemma ValidNameIsEntry(s: string)
    requires ValidName(s)
    ensures ValidEntry(s)
  {
    assert s[0] != '.';
  }

  /** What `Validate` accepts: valid names, unique and sorted. */
  predicate Canonical(names: seq<string>)
  {
    (forall i :: 0 <= i < |names| ==> ValidName(names[i])) && StrictlySorted(names)
  }

  /** The loop only compares neighbours; acceptance means the whole list is canonical. */
  method Validate(names: seq<string>) returns (ok: bool)
    ensures ok <==> Canonical(names)
  {
    var index := 0;
    while index < |names|
      invariant 0 <= index <= |names|
      invariant forall i :: 0 <= i < index ==> ValidName(names[i])
      invariant forall i :: 0 < i < index ==> Less(names[i - 1], names[i])
    {
      if !ValidName(names[index]) {
        return false;
      }
      if index > 0 && !Less(names[index - 1], names[index]) {
        return false;
      }
      index := index + 1;
    }
    AdjacentSorted(names);
    return true;
  }

  /** `sort.SearchStrings` narrowed to `names[lo..hi]`. */
  function Search(names: seq<string>, target: string, lo: nat, hi: nat): (index: nat)
    requires lo <= hi <= |names|
    ensures lo <= index <= hi
    decreases hi - lo
  {
    if lo == hi then lo
    else
      var mid := (lo + hi) / 2;
      if Less(names[mid], target) then Search(names, target, mid + 1, hi)
      else Search(names, target, lo, mid)
  }

  predicate Contains(names: seq<string>, target: string)
  {
    var index := Search(names, target, 0, |names|);
    index < |names| && names[index] == target
  }

  lemma {:induction false} SearchFinds(names: seq<string>, target: string, lo: nat, hi: nat, at: nat)
    requires StrictlySorted(names) && lo <= at < hi <= |names| && names[at] == target
    ensures Search(names, target, lo, hi) == at
    decreases hi - lo
  {
    var mid := (lo + hi) / 2;
    if Less(names[mid], target) {
      if at <= mid {
        LessIrreflexive(target);
        if at < mid { LessTransitive(target, names[mid], target); }
      }
      SearchFinds(names, target, mid + 1, hi, at);
    } else if at < mid {
      SearchFinds(names, target, lo, mid, at);
    } else {
      assert at == mid;
      SearchSettles(names, target, lo, mid);
    }
  }

  /** With everything in `names[lo..hi]` below the target, the search ends at `hi`. */
  lemma {:induction false} SearchSettles(names: seq<string>, target: string, lo: nat, hi: nat)
    requires StrictlySorted(names) && lo <= hi < |names| && names[hi] == target
    ensures Search(names, target, lo, hi) == hi
    decreases hi - lo
  {
    if lo < hi {
      SearchSettles(names, target, (lo + hi) / 2 + 1, hi);
    }
  }

  /** On a sorted list the binary search decides membership exactly. */
  lemma ContainsIsMembership(names: seq<string>, target: string)
    requires StrictlySorted(names)
    ensures Contains(names, target) <==> target in names
  {
    if target in names {
      var at :| 0 <= at < |names| && names[at] == target;
      SearchFinds(names, target, 0, |names|, at);
    }
  }

  predicate Unrepeated(names: seq<string>)
  {
    forall i, j :: 0 <= i < j < |names| ==> names[i] != names[j]
  }

  /** The search within `names[lo..hi]` ends at each name that is there. */
  predicate FindsAll(names: seq<string>, lo: nat, hi: nat)
    requires lo <= hi <= |names|
  {
    forall at :: lo <= at < hi ==> Search(names, names[at], lo, hi) == at
  }

  /** A search that finds everything has its list in order, half by half. */
  lemma {:induction false} FindsAllSorted(names: seq<string>, lo: nat, hi: nat)
    requires Unrepeated(names) && lo <= hi <= |names| && FindsAll(names, lo, hi)
    ensures forall i, j :: lo <= i < j < hi ==> Less(names[i], names[j])
    decreases hi - lo
  {
    if lo < hi {
      var mid := (lo + hi) / 2;
      forall at | lo <= at < hi
        ensures at < mid ==> Less(names[at], names[mid]) && Search(names, names[at], lo, mid) == at
        ensures at > mid ==> Less(names[mid], names[at]) && Search(names, names[at], mid + 1, hi) == at
      {
        assert Search(names, names[at], lo, hi) == at;
        LessTotal(names[at], names[mid]);
      }
      FindsAllSorted(names, lo, mid);
      FindsAllSorted(names, mid + 1, hi);
      forall i, j | lo <= i < j < hi ensures Less(names[i], names[j]) {
        if i < mid < j {
          LessTransitive(names[i], names[mid], names[j]);
        }
      }
    }
  }

  /** On lists without repetition the search is membership for every name if and only
      if the list is sorted. */
  lemma MembershipExactly(names: seq<string>)
    requires Unrepeated(names)
    ensures (forall name :: Contains(names, name) <==> name in names) <==> StrictlySorted(names)
  {
    if StrictlySorted(names) {
      forall name ensures Contains(names, name) <==> name in names {
        ContainsIsMembership(names, name);
      }
    }
    if forall name :: Contains(names, name) <==> name in names {
      forall at | 0 <= at < |names| ensures Search(names, names[at], 0, |names|) == at {
        assert Contains(names, names[at]);
      }
      FindsAllSorted(names, 0, |names|);
    }
  }

  /** On an unsorted list it can miss a name that is there. */
  lemma ContainsCanMiss()
    ensures exists names: seq<string> :: "gitea" in names && !Contains(names, "gitea")
  {
    var names := ["gitea", "a"];
    assert !Less("a", "a") && Less("a", "gitea");
    assert Search(names, "gitea", 0, 2) == Search(names, "gitea", 2, 2) == 2;
    assert names[0] == "gitea";
    assert "gitea" in names && !Contains(names, "gitea");
  }

  // -------------------------------------------------------------- discovery

  datatype Switches = Switches(cloudflareDisabled: bool, mockTunnel: bool, observabilityDisabled: bool)

  predicate Disabled(sw: Switches, name: string)
  {
    (name == "cloudflared" && (sw.cloudflareDisabled || sw.mockTunnel)) ||
    (name == "observability" && sw.observabilityDisabled)
  }

  const COMPOSE: Name := "compose.yaml"

  /** A rendered stack that is switched on and has a regular compose file. */
  predicate Active(sw: Switches, stacks: map<Name, Tree>, name: string)
  {
    ValidEntry(name) && name in stacks && stacks[name].Dir? && ValidName(name) && !Disabled(sw, name) &&
    COMPOSE in stacks[name].kids && stacks[name].kids[COMPOSE].File?
  }

  method Discover(sw: Switches, stacks: map<Name, Tree>) returns (names: seq<string>)
    ensures Canonical(names)
    ensures forall n :: n in names <==> Active(sw, stacks, n)
  {
    var entries := SortedNames(stacks.Keys);
    names := [];
    var i := 0;
    while i < |entries|
      invariant 0 <= i <= |entries|
      invariant StrictlySorted(names)
      invariant forall n :: n in names <==> n in entries[..i] && Active(sw, stacks, n)
    {
      var entry := entries[i];
      if Active(sw, stacks, entry) {
        SortedIsDistinct(entries);
        names := InsertName(names, entry);
      }
      assert entries[..i + 1] == entries[..i] + [entry];
      i := i + 1;
    }
    assert entries[..|entries|] == entries;
    assert forall k :: 0 <= k < |names| ==> names[k] in names;
  }
}

/** `orderedActiveStacks`: known stacks first, in a fixed order. */
module StackOrder {
  import opened Text
  import opened StackScope

  const PRIORITY: seq<string> :=
    ["openbao", "traefik", "crowdsec", "keycloak", "harbor", "gitea", "observability", "cloudflared"]

  predicate Distinct(names: seq<string>)
  {
    forall i, j :: 0 <= i < j < |names| ==> names[i] != names[j]
  }

  /** Position in the fixed order; every unknown stack comes after all known ones. */
  function Rank(priority: seq<string>, name: string): (r: nat)
    ensures r <= |priority|
    ensures r < |priority| ==> priority[r] == name
    ensures r == |priority| <==> name !in priority
  {
    RankFrom(priority, name, 0)
  }

  function RankFrom(priority: seq<string>, name: string, k: nat): (r: nat)
    requires k <= |priority|
    ensures k <= r <= |priority|
    ensures r < |priority| ==> priority[r] == name
    ensures forall i :: k <= i < r ==> priority[i] != name
    decreases |priority| - k
  {
    if k == |priority| || priority[k] == name then k else RankFrom(priority, name, k + 1)
  }

  /** The stacks of `names` that are not in the fixed order, in the order given. */
  function Unknown(priority: seq<string>, names: seq<string>): seq<string>
  {
    if names == [] then []
    else
      var n := |names| - 1;
      Unknown(priority, names[..n]) + if names[n] !in priority then [names[n]] else []
  }

  /** Sorted by rank; only stacks outside the fixed order may share one. */
  predicate Ranked(priority: seq<string>, names: seq<string>)
  {
    forall i, j :: 0 <= i < j < |names| ==>
      Rank(priority, names[i]) < Rank(priority, names[j]) || (names[i] !in priority && names[j] !in priority)
  }

  /** The list every start follows and every stop follows backwards. It is a
      reordering of the active stacks, sorted by rank, and stacks outside the
      fixed order keep their input order. */
  method OrderedActiveStacks(active: seq<string>) returns (ordered: seq<string>)
    requires Canonical(active)
    ensures multiset(ordered) == multiset(active)
    ensures Ranked(PRIORITY, ordered)
    ensures Unknown(PRIORITY, ordered) == Unknown(PRIORITY, active)
  {
    ordered := OrderBy(PRIORITY, active);
  }

  method OrderBy(priority: seq<string>, active: seq<string>) returns (ordered: seq<string>)
    requires Canonical(active) && Distinct(priority)
    ensures multiset(ordered) == multiset(active)
    ensures Ranked(priority, ordered)
    ensures Unknown(priority, ordered) == Unknown(priority, active)
  {
    ordered := KnownInOrder(priority, active);
    OrderedIsPermutation(priority, active, ordered);
    RankedAppend(priority, ordered, active);
    ordered := AppendUnknown(priority, ordered, active);
  }

  method AppendUnknown(priority: seq<string>, known: seq<string>, active: seq<string>)
    returns (ordered: seq<string>)
    ensures ordered == known + Unknown(priority, active)
  {
    ordered := known;
    var i := 0;
    while i < |active|
      invariant 0 <= i <= |active|
      invariant ordered == known + Unknown(priority, active[..i])
    {
      assert active[..i + 1][..i] == active[..i];
      if active[i] !in priority {
        ordered := ordered + [active[i]];
      }
      i := i + 1;
    }
    assert active[..|active|] == active;
  }

  method KnownInOrder(priority: seq<string>, active: seq<string>) returns (ordered: seq<string>)
    requires StrictlySorted(active) && Distinct(priority)
    ensures forall n :: n in ordered <==> n in active && n in priority
    ensures Ranked(priority, ordered) && Unknown(priority, ordered) == []
  {
    ordered := [];
    var k := 0;
    while k < |priority|
      invariant 0 <= k <= |priority|
      invariant Follows(priority, active, k, ordered)
    {
      ContainsIsMembership(active, priority[k]);
      FollowsNext(priority, active, k, ordered);
      if Contains(active, priority[k]) {
        ordered := ordered + [priority[k]];
      }
      k := k + 1;
    }
    assert priority[..|priority|] == priority;
  }

  /** The known part after the first `k` names of the fixed order. */
  ghost predicate Follows(priority: seq<string>, active: seq<string>, k: nat, ordered: seq<string>)
    requires k <= |priority|
  {
    && (forall n :: n in ordered <==> n in active && n in priority[..k])
    && Ranked(priority, ordered)
    && Unknown(priority, ordered) == []
  }

  lemma FollowsNext(priority: seq<string>, active: seq<string>, k: nat, ordered: seq<string>)
    requires k < |priority| && Distinct(priority) && Follows(priority, active, k, ordered)
    ensures Follows(priority, active, k + 1, if priority[k] in active then ordered + [priority[k]] else ordered)
  {
    assert priority[..k + 1] == priority[..k] + [priority[k]];
    if priority[k] in active {
      RankedExtend(priority, ordered, k);
    }
  }

  lemma RankedExtend(priority: seq<string>, ordered: seq<string>, k: nat)
    requires k < |priority| && Distinct(priority) && Ranked(priority, ordered)
    requires forall n :: n in ordered ==> n in priority[..k]
    ensures Ranked(priority, ordered + [priority[k]])
    ensures Unknown(priority, ordered + [priority[k]]) == Unknown(priority, ordered)
  {
    RankAt(priority, k);
    assert (ordered + [priority[k]])[..|ordered|] == ordered;
    forall i | 0 <= i < |ordered| ensures Rank(priority, ordered[i]) < k {
      assert ordered[i] in priority[..k];
      var j :| 0 <= j < k && priority[j] == ordered[i];
      RankAt(priority, j);
    }
  }

  lemma {:induction false} UnknownOfAppend(priority: seq<string>, a: seq<string>, b: seq<string>)
    ensures Unknown(priority, a + b) == Unknown(priority, a) + Unknown(priority, b)
  {
    if b == [] {
      assert a + b == a;
    } else {
      var n := |b| - 1;
      assert (a + b)[..|a| + n] == a + b[..n];
      UnknownOfAppend(priority, a, b[..n]);
    }
  }

  lemma {:induction false} UnknownIdempotent(priority: seq<string>, a: seq<string>)
    ensures Unknown(priority, Unknown(priority, a)) == Unknown(priority, a)
  {
    if a != [] {
      var n := |a| - 1;
      UnknownIdempotent(priority, a[..n]);
      var rest := Unknown(priority, a[..n]);
      UnknownOfAppend(priority, rest, if a[n] !in priority then [a[n]] else []);
      assert Unknown(priority, [a[n]]) == if a[n] !in priority then [a[n]] else [];
    }
  }

  lemma RankAt(priority: seq<string>, k: nat)
    requires k < |priority| && Distinct(priority)
    ensures Rank(priority, priority[k]) == k
  {
    assert priority[k] in priority;
    var r := Rank(priority, priority[k]);
    assert priority[r] == priority[k];
  }

  lemma {:induction false} UnknownOnlyUnknown(priority: seq<string>, names: seq<string>)
    ensures forall n :: n in Unknown(priority, names) <==> n in names && n !in priority
    ensures forall n :: multiset(Unknown(priority, names))[n] == if n !in priority then multiset(names)[n] else 0
  {
    if names != [] {
      var k := |names| - 1;
      UnknownOnlyUnknown(priority, names[..k]);
      assert names == names[..k] + [names[k]];
    }
  }

  lemma RankedAppend(priority: seq<string>, known: seq<string>, active: seq<string>)
    requires Ranked(priority, known) && Unknown(priority, known) == []
    requires forall n :: n in known ==> n in priority
    ensures Ranked(priority, known + Unknown(priority, active))
    ensures Unknown(priority, known + Unknown(priority, active)) == Unknown(priority, active)
  {
    UnknownOfAppend(priority, known, Unknown(priority, active));
    UnknownIdempotent(priority, active);
    UnknownOnlyUnknown(priority, active);
    var all := known + Unknown(priority, active);
    forall i, j | 0 <= i < j < |all|
      ensures Rank(priority, all[i]) < Rank(priority, all[j]) || (all[i] !in priority && all[j] !in priority)
    {
      assert i < |known| ==> known[i] in known;
      assert j >= |known| ==> all[j] in Unknown(priority, active);
      assert i >= |known| ==> all[i] in Unknown(priority, active);
    }
  }

  lemma OrderedIsPermutation(priority: seq<string>, active: seq<string>, known: seq<string>)
    requires StrictlySorted(active)
    requires forall n :: n in known <==> n in active && n in priority
    requires Ranked(priority, known)
    ensures multiset(known + Unknown(priority, active)) == multiset(active)
  {
    UnknownOnlyUnknown(priority, active);
    SortedIsDistinct(active);
    forall i, j | 0 <= i < j < |known| ensures known[i] != known[j] {
      assert known[i] in known;
    }
    forall n
      ensures multiset(known + Unknown(priority, active))[n] == multiset(active)[n]
    {
      DistinctCount(active, n);
      DistinctCount(known, n);
    }
  }

  lemma {:induction false} DistinctCount(names: seq<string>, n: string)
    requires Distinct(names)
    ensures multiset(names)[n] == if n in names then 1 else 0
  {
    if names != [] {
      var k := |names| - 1;
      DistinctCount(names[..k], n);
      assert names == names[..k] + [names[k]];
    }
  }

  /** `a` and `b` hold the same stacks, both in rank order, with the unknown ones in
      the same order. */
  predicate SameOrderings(priority: seq<string>, a: seq<string>, b: seq<string>)
  {
    && multiset(a) == multiset(b)
    && Ranked(priority, a) && Ranked(priority, b)
    && Unknown(priority, a) == Unknown(priority, b)
  }

  lemma WithoutLast(priority: seq<string>, a: seq<string>, b: seq<string>)
    requires |a| == |b| > 0 && SameOrderings(priority, a, b) && a[|a| - 1] == b[|b| - 1]
    ensures SameOrderings(priority, a[..|a| - 1], b[..|b| - 1])
  {
    hide Ranked, Unknown, Rank;
    LastRemoved(priority, a);
    LastRemoved(priority, b);
  }

  /** Any two lists with the promised properties are the same list, so the order
      is determined by the active stacks alone. */
  lemma {:induction false} OrderIsUnique(priority: seq<string>, a: seq<string>, b: seq<string>)
    requires SameOrderings(priority, a, b)
    ensures a == b
    decreases |a|
  {
    SameLength(a, b);
    if a != [] {
      var k := |a| - 1;
      LastAgrees(priority, a, b);
      WithoutLast(priority, a, b);
      hide SameOrderings;
      OrderIsUnique(priority, a[..k], b[..k]);
      assert a == a[..k] + [a[k]] && b == b[..k] + [b[k]];
    }
  }

  lemma SameLength(a: seq<string>, b: seq<string>)
    requires multiset(a) == multiset(b)
    ensures |a| == |b|
  {
    assert |a| == |multiset(a)| == |multiset(b)| == |b|;
  }

  lemma LastRemoved(priority: seq<string>, a: seq<string>)
    requires a != [] && Ranked(priority, a)
    ensures Ranked(priority, a[..|a| - 1])
    ensures multiset(a[..|a| - 1]) == multiset(a) - multiset{a[|a| - 1]}
    ensures Unknown(priority, a[..|a| - 1]) ==
      if a[|a| - 1] in priority then Unknown(priority, a)
      else Unknown(priority, a)[..|Unknown(priority, a)| - 1]
  {
    var n := |a| - 1;
    RankedPrefix(priority, a, n);
    hide Ranked, Rank;
    LastOfMultiset(a);
    var u := Unknown(priority, a[..n]);
    assert Unknown(priority, a) == u + if a[n] !in priority then [a[n]] else [];
    assert (u + [a[n]])[..|u|] == u;
  }

  lemma LastOfMultiset(a: seq<string>)
    requires a != []
    ensures multiset(a[..|a| - 1]) == multiset(a) - multiset{a[|a| - 1]}
  {
    assert a == a[..|a| - 1] + [a[|a| - 1]];
  }

  lemma RankedPrefix(priority: seq<string>, a: seq<string>, n: nat)
    requires n <= |a| && Ranked(priority, a)
    ensures Ranked(priority, a[..n])
  {
    hide Rank;
  }

  lemma LastAgrees(priority: seq<string>, a: seq<string>, b: seq<string>)
    requires |a| == |b| > 0
    requires multiset(a) == multiset(b)
    requires Ranked(priority, a) && Ranked(priority, b)
    requires Unknown(priority, a) == Unknown(priority, b)
    ensures a[|a| - 1] == b[|b| - 1]
  {
    hide Unknown;
    var k := |a| - 1;
    var x, y := a[k], b[k];
    assert y in multiset(a) && x in multiset(b);
    var i :| 0 <= i < |a| && a[i] == y;
    var j :| 0 <= j < |b| && b[j] == x;
    if x !in priority && y !in priority {
      LastUnknown(priority, a);
      LastUnknown(priority, b);
    }
  }

  lemma LastUnknown(priority: seq<string>, a: seq<string>)
    requires a != [] && a[|a| - 1] !in priority
    ensures var u := Unknown(priority, a); u != [] && u[|u| - 1] == a[|a| - 1]
  {
  }
}
