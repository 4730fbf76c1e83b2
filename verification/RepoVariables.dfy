/** The environment variables that configure each Restic repository: splitting a
    variable name into the setting and the repository it belongs to. */
module RepoVariables {
  import opened Text

  // ------------------------------------------------- repository variable names

  /** The variables a repository may set, in dictionary order. */
  const PREFIXES: seq<string> := [
    "AWS_ACCESS_KEY_ID", "AWS_DEFAULT_REGION", "AWS_SECRET_ACCESS_KEY", "AWS_SESSION_TOKEN",
    "AZURE_ACCOUNT_KEY", "AZURE_ACCOUNT_NAME", "AZURE_ACCOUNT_SAS", "AZURE_CLIENT_ID", "AZURE_CLIENT_SECRET",
    "AZURE_TENANT_ID", "B2_ACCOUNT_ID", "B2_ACCOUNT_KEY", "GOOGLE_APPLICATION_CREDENTIALS", "GOOGLE_PROJECT_ID",
    "OS_AUTH_URL", "OS_PASSWORD", "OS_PROJECT_DOMAIN_NAME", "OS_PROJECT_NAME", "OS_REGION_NAME",
    "OS_TENANT_ID", "OS_TENANT_NAME", "OS_USERNAME", "OS_USER_DOMAIN_ID", "OS_USER_DOMAIN_NAME", "OS_USER_ID",
    "RESTIC_FORGET_ARGS", "RESTIC_OPTIONS", "RESTIC_PASSWORD", "RESTIC_REPOSITORY", "RESTIC_REST_PASSWORD",
    "RESTIC_REST_USERNAME", "ST_AUTH", "ST_KEY", "ST_USER"]

  /** `key` is `prefix`, an underscore, and something. */
  predicate Splits(prefix: string, key: string)
  {
    prefix + "_" <= key && |key| > |prefix| + 1
  }

  predicate ByLength(names: seq<string>)
  {
    forall i, j :: 0 <= i < j < |names| ==> |names[i]| >= |names[j]|
  }

  /** What the search returns, whatever order it tries names of equal length in:
      the longest prefix that splits the key. */
  predicate LongestSplit(prefixes: seq<string>, key: string, found: Option<string>)
  {
    match found
    case None => forall p :: p in prefixes ==> !Splits(p, key)
    case Some(q) => q in prefixes && Splits(q, key) && forall p :: p in prefixes && Splits(p, key) ==> |p| <= |q|
  }

  /** `splitRepoVar`. The unstable sort may leave names of equal length in any order. */
  method SplitRepoVar(prefixes: seq<string>, key: string) returns (found: Option<string>, suffix: string)
    ensures LongestSplit(prefixes, key, found)
    ensures found.Some? ==> key == found.value + "_" + suffix && suffix != ""
  {
    var sorted := SortByLength(prefixes);
    var k := 0;
    while k < |sorted|
      invariant 0 <= k <= |sorted|
      invariant forall i :: 0 <= i < k ==> !Splits(sorted[i], key)
    {
      var prefix := sorted[k];
      if prefix + "_" <= key {
        suffix := key[|prefix| + 1..];
        if suffix != "" {
          assert prefix in sorted;
          return Some(prefix), suffix;
        }
      }
      k := k + 1;
    }
    found, suffix := None, "";
  }

  method SortByLength(names: seq<string>) returns (sorted: seq<string>)
    ensures ByLength(sorted)
    ensures forall n :: n in sorted <==> n in names
  {
    sorted := [];
    var k := 0;
    while k < |names|
      invariant 0 <= k <= |names|
      invariant ByLength(sorted)
      invariant forall n :: n in sorted <==> n in names[..k]
    {
      sorted := InsertByLength(sorted, names[k]);
      assert names[..k + 1] == names[..k] + [names[k]];
      k := k + 1;
    }
    assert names[..|names|] == names;
  }

  method InsertByLength(names: seq<string>, name: string) returns (out: seq<string>)
    requires ByLength(names)
    ensures ByLength(out)
    ensures forall n :: n in out <==> n in names || n == name
  {
    var i, stop := 0, false;
    while i < |names| && |names[i]| >= |name| && !stop
      invariant 0 <= i <= |names|
      invariant forall k :: 0 <= k < i ==> |names[k]| >= |name|
      invariant stop ==> i < |names| && |names[i]| == |name|
      decreases |names| - i, !stop
    {
      var here := *;
      if |names[i]| == |name| && here {
        stop := true;
      } else {
        i := i + 1;
      }
    }
    out := names[..i] + [name] + names[i..];
    assert names == names[..i] + names[i..];
  }

  /** The result does not depend on the order in which equal lengths are tried. */
  lemma LongestIsUnique(prefixes: seq<string>, key: string, a: Option<string>, b: Option<string>)
    requires LongestSplit(prefixes, key, a) && LongestSplit(prefixes, key, b)
    ensures a == b
  {
    if a.Some? && b.Some? {
      var n := |a.value|;
      assert (a.value + "_")[..n] == key[..n] == (b.value + "_")[..n];
    }
  }

  ghost predicate Invertible(prefixes: seq<string>)
  {
    forall p, suffix, found ::
      p in prefixes && suffix != "" && LongestSplit(prefixes, p + "_" + suffix, found) ==> found == Some(p)
  }

  /** Splitting undoes joining for every non-empty suffix exactly when no variable
      name followed by an underscore begins another one. */
  lemma InvertibleExactly(prefixes: seq<string>)
    ensures Invertible(prefixes) <==>
      forall p, q :: p in prefixes && q in prefixes && p != q ==> !(p + "_" <= q + "_")
  {
    if Invertible(prefixes) {
      forall p, q | p in prefixes && q in prefixes && p != q ensures !(p + "_" <= q + "_") {
        if p + "_" <= q + "_" {
          LongerWins(prefixes, p, q);
        }
      }
    }
    if forall p, q :: p in prefixes && q in prefixes && p != q ==> !(p + "_" <= q + "_") {
      forall p, suffix, found | p in prefixes && suffix != "" && LongestSplit(prefixes, p + "_" + suffix, found)
        ensures found == Some(p)
      {
        PrefixFreeSplits(prefixes, p, suffix, found);
      }
    }
  }

  lemma LongerWins(prefixes: seq<string>, p: string, q: string)
    requires p in prefixes && q in prefixes && p != q && p + "_" <= q + "_"
    ensures !Invertible(prefixes)
  {
    var key := q + "_" + "x";
    var suffix := key[|p| + 1..];
    assert key == p + "_" + suffix && suffix != "";
    assert (p + "_")[..|p|] == p && (q + "_")[..|q|] == q;
    assert Splits(q, key) && |q| > |p|;
    var found := Longest(prefixes, key);
  }

  /** A longest splitting prefix always exists when any splits. */
  lemma {:induction false} Longest(prefixes: seq<string>, key: string) returns (found: Option<string>)
    ensures LongestSplit(prefixes, key, found)
  {
    if prefixes == [] {
      found := None;
    } else {
      var n := |prefixes| - 1;
      assert prefixes == prefixes[..n] + [prefixes[n]];
      found := Longest(prefixes[..n], key);
      if Splits(prefixes[n], key) && (found.None? || |found.value| < |prefixes[n]|) {
        found := Some(prefixes[n]);
      }
    }
  }

  lemma PrefixFreeSplits(prefixes: seq<string>, p: string, suffix: string, found: Option<string>)
    requires forall p, q :: p in prefixes && q in prefixes && p != q ==> !(p + "_" <= q + "_")
    requires p in prefixes && suffix != "" && LongestSplit(prefixes, p + "_" + suffix, found)
    ensures found == Some(p)
  {
    var key := p + "_" + suffix;
    assert Splits(p, key);
    var q := found.value;
    assert p + "_" <= q + "_" by {
      assert |p| <= |q|;
      assert p + "_" == key[..|p| + 1] && q + "_" == key[..|q| + 1];
    }
  }

  // -------------------------------------------- the names this program knows

  /** The two first differ at `i`, `a` being the smaller there. */
  predicate Diverges(a: string, b: string, i: nat)
  {
    i < |a| && i < |b| && a[..i] == b[..i] && a[i] < b[i]
  }

  lemma DivergesOn(a: string, b: string, c: string, i: nat, j: nat)
    requires Diverges(a, b, i) && Diverges(b, c, j)
    ensures Diverges(a, c, if i < j then i else j)
  {
    var m := if i < j then i else j;
    assert a[..m] == a[..i][..m] && b[..m] == b[..i][..m] && b[..m] == b[..j][..m] && c[..m] == c[..j][..m];
    assert i < j ==> b[i] == b[..j][i] && c[i] == c[..j][i];
    assert j < i ==> a[j] == a[..i][j] && b[j] == b[..i][j];
  }

  lemma {:induction false} ChainDiverges(names: seq<string>, at: seq<nat>, i: nat, j: nat) returns (k: nat)
    requires i < j < |names| && |at| == |names| - 1
    requires forall m :: 0 <= m < |at| ==> Diverges(names[m], names[m + 1], at[m])
    ensures Diverges(names[i], names[j], k)
    decreases j - i
  {
    assert Diverges(names[j - 1], names[j - 1 + 1], at[j - 1]);
    k := at[j - 1];
    if i < j - 1 {
      var before := ChainDiverges(names, at, i, j - 1);
      DivergesOn(names[i], names[j - 1], names[j], before, k);
      k := if before < k then before else k;
    }
  }

  lemma ChainIsPrefixFree(names: seq<string>, at: seq<nat>)
    requires |names| > 0 && |at| == |names| - 1
    requires forall m :: 0 <= m < |at| ==> Diverges(names[m], names[m + 1], at[m])
    ensures forall p, q :: p in names && q in names && p != q ==> !(p + "_" <= q + "_")
  {
    forall p, q | p in names && q in names && p != q ensures !(p + "_" <= q + "_") {
      var i :| 0 <= i < |names| && names[i] == p;
      var j :| 0 <= j < |names| && names[j] == q;
      var k;
      if i < j {
        k := ChainDiverges(names, at, i, j);
      } else {
        k := ChainDiverges(names, at, j, i);
      }
      assert (p + "_")[k] == p[k] && (q + "_")[k] == q[k] && p[k] != q[k];
    }
  }

  /** Where each name and the next one part. */
  const TURNS: seq<nat> :=
    [4, 4, 6, 1, 14, 14, 6, 13, 6, 0, 11, 0, 7, 0, 3, 4, 11, 3, 3, 10, 3, 7, 15, 8, 0, 7, 7, 7, 9, 12, 0, 3, 3]

  predicate Turn(m: nat)
    requires m < |TURNS|
  {
    Diverges(PREFIXES[m], PREFIXES[m + 1], TURNS[m])
  }

  lemma TurnsA()
    ensures Turn(0) && Turn(1) && Turn(2) && Turn(3) && Turn(4)
  {
  }

  lemma TurnsB()
    ensures Turn(5) && Turn(6) && Turn(7) && Turn(8) && Turn(9)
  {
  }

  lemma TurnsC()
    ensures Turn(10) && Turn(11) && Turn(12) && Turn(13)
  {
  }

  lemma TurnsD()
    ensures Turn(14) && Turn(15) && Turn(16) && Turn(17)
  {
  }

  lemma TurnsE()
    ensures Turn(18) && Turn(19) && Turn(20) && Turn(21) && Turn(22)
  {
  }

  lemma TurnsF()
    ensures Turn(23) && Turn(24) && Turn(25) && Turn(26) && Turn(27)
  {
  }

  lemma TurnsG()
    ensures Turn(28) && Turn(29) && Turn(30) && Turn(31) && Turn(32)
  {
  }

  lemma EveryTurn(m: nat)
    requires m < |TURNS|
    ensures Turn(m)
  {
    hide Turn, PREFIXES;
    if m < 5 { TurnsA(); }
    else if m < 10 { TurnsB(); }
    else if m < 14 { TurnsC(); }
    else if m < 18 { TurnsD(); }
    else if m < 23 { TurnsE(); }
    else if m < 28 { TurnsF(); }
    else { TurnsG(); }
  }

  /** None of the 34 names begins another, so splitting inverts joining for every
      one of them and every non-empty suffix. */
  lemma VariablesInvertible()
    ensures Invertible(PREFIXES)
  {
    hide Invertible, Diverges;
    forall m | 0 <= m < |TURNS| ensures Diverges(PREFIXES[m], PREFIXES[m + 1], TURNS[m]) {
      EveryTurn(m);
    }
    ChainIsPrefixFree(PREFIXES, TURNS);
    InvertibleExactly(PREFIXES);
  }
}
