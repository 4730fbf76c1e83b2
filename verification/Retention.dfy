/** The backup list and its rotation. */
module Retention {
  import opened Text
  import opened Trees
  import opened Manifests
  import opened Delivery
  import opened Hosts

  /** Instants as backup ids and back, and the modification time of a backup. */
  datatype Calendar = Calendar(format: Time -> Stamp, parse: string -> Option<Time>, modified: string -> Time)

  datatype Info = Info(id: string, createdAt: Time, invalid: bool, offline: bool)

  predicate Digit(c: char) { '0' <= c <= '9' }

  /** `^[0-9]{8}-[0-9]{6}$` */
  predicate ValidID(id: string)
  {
    |id| == 15 && id[8] == '-' && forall i :: 0 <= i < 15 && i != 8 ==> Digit(id[i])
  }

  const PARTIAL_PREFIX := ".partial-"
  const FAILED_DIR := ".failed"

  /** Unpublished directories and failure records are never listed, and a listed
      id is one a manifest may carry. */
  lemma OnlyPublishedListed(id: string)
    requires ValidID(id)
    ensures !(PARTIAL_PREFIX <= id) && id != FAILED_DIR && ValidEntry(id)
  {
    assert id[0] != '.' && forall i :: 0 <= i < 15 ==> id[i] != '/';
  }

  /** `inspect` on a directory it can read. */
  function Inspect(c: Codec, cal: Calendar, id: string, t: Tree): Info
  {
    var m := ReadManifest(c, t);
    var sound := m.Some? && SupportedVersion(m.value.version) && m.value.complete && m.value.id == id;
    var named := cal.parse(id);
    var stamp := if named.Some? then named.value else cal.modified(id);
    Info(id, if sound && m.value.createdAt != 0 then m.value.createdAt else stamp, !sound, IsFileAt(t, [OFFLINE_TAR]))
  }

  predicate Listed(root: map<string, Tree>, id: string)
  {
    id in root && root[id].Dir? && ValidID(id)
  }

  /** Newest first, no id twice. */
  predicate Ordered(b: seq<Info>)
  {
    forall i, j :: 0 <= i < j < |b| ==> b[i].id != b[j].id && b[i].createdAt >= b[j].createdAt
  }

  function Ids(b: seq<Info>): set<string> { set x | x in b :: x.id }

  predicate Inspected(c: Codec, cal: Calendar, root: map<string, Tree>, b: seq<Info>)
  {
    forall x :: x in b ==> Listed(root, x.id) && x == Inspect(c, cal, x.id, root[x.id])
  }

  /** `b` lists the chosen ids of `root`, newest first. */
  predicate IsListing(c: Codec, cal: Calendar, root: map<string, Tree>, chosen: set<string>, b: seq<Info>)
  {
    Ordered(b) && Inspected(c, cal, root, b) && Ids(b) == chosen
  }

  function ListedIds(root: map<string, Tree>): set<string>
  {
    set id | id in root && Listed(root, id)
  }

  /** One step of the unstable sort: among equal instants any order may result. */
  method InsertByTime(b: seq<Info>, x: Info) returns (out: seq<Info>)
    requires Ordered(b) && x.id !in Ids(b)
    ensures Ordered(out) && Ids(out) == Ids(b) + {x.id}
    ensures forall y :: y in out <==> y == x || y in b
  {
    var i := 0;
    var stop := false;
    while i < |b| && b[i].createdAt >= x.createdAt && !stop
      invariant 0 <= i <= |b|
      invariant forall k :: 0 <= k < i ==> b[k].createdAt >= x.createdAt
      invariant stop ==> i < |b| && b[i].createdAt == x.createdAt
      decreases |b| - i, !stop
    {
      var here := *;
      if b[i].createdAt == x.createdAt && here {
        stop := true;
      } else {
        i := i + 1;
      }
    }
    out := b[..i] + [x] + b[i..];
    Inserted(b, x, i, out);
  }

  lemma Inserted(b: seq<Info>, x: Info, at: nat, out: seq<Info>)
    requires Ordered(b) && x.id !in Ids(b)
    requires at <= |b| && out == b[..at] + [x] + b[at..]
    requires forall k :: 0 <= k < at ==> b[k].createdAt >= x.createdAt
    requires at < |b| ==> x.createdAt >= b[at].createdAt
    ensures Ordered(out) && Ids(out) == Ids(b) + {x.id}
    ensures forall y :: y in out <==> y == x || y in b
  {
    assert b == b[..at] + b[at..];
    assert forall y :: y in out <==> y == x || y in b;
    forall i, j | 0 <= i < j < |out|
      ensures out[i].id != out[j].id && out[i].createdAt >= out[j].createdAt
    {
      InsertedPair(b, x, at, out, i, j);
    }
  }

  lemma InsertedPair(b: seq<Info>, x: Info, at: nat, out: seq<Info>, i: nat, j: nat)
    requires Ordered(b) && at <= |b| && out == b[..at] + [x] + b[at..]
    requires forall k :: 0 <= k < |b| ==> b[k].id != x.id
    requires forall k :: 0 <= k < at ==> b[k].createdAt >= x.createdAt
    requires at < |b| ==> x.createdAt >= b[at].createdAt
    requires i < j < |out|
    ensures out[i].id != out[j].id && out[i].createdAt >= out[j].createdAt
  {
    if j < at {
      assert out[i] == b[i] && out[j] == b[j];
    } else if j == at {
      assert out[i] == b[i];
    } else if i == at {
      assert out[j] == b[j - 1];
    } else {
      assert out[j] == b[j - 1] && out[i] == b[if i < at then i else i - 1];
    }
  }

  /** `List`: entries that are directories with a valid id, newest first. */
  method List(h: Host, c: Codec, cal: Calendar) returns (ok: bool, backups: seq<Info>)
    modifies h`faults
    ensures h.faults >= old(h.faults)
    ensures ok ==> IsListing(c, cal, h.root, ListedIds(h.root), backups)
    ensures h.faults == old(h.faults) ==> ok
  {
    backups := [];
    ok := h.Attempt();
    if !ok {
      return;
    }
    var entries := SortedNames(h.root.Keys);
    SortedIsDistinct(entries);
    var k := 0;
    while k < |entries|
      invariant 0 <= k <= |entries|
      invariant h.faults >= old(h.faults)
      invariant Ordered(backups) && Inspected(c, cal, h.root, backups)
      invariant forall id :: id in Ids(backups) <==> id in entries[..k] && Listed(h.root, id)
    {
      var entry := entries[k];
      assert entries[..k + 1] == entries[..k] + [entry];
      assert entry in h.root by { assert entry in entries; }
      if h.root[entry].Dir? && ValidID(entry) {
        ok := h.Attempt();
        if !ok {
          return;
        }
        ghost var before := backups;
        assert entry !in Ids(backups);
        backups := InsertByTime(backups, Inspect(c, cal, entry, h.root[entry]));
      }
      k := k + 1;
    }
    assert entries[..|entries|] == entries;
    assert Ids(backups) == ListedIds(h.root);
  }

  // ---------------------------------------------------------------- rotation

  /** `validateScheduledOfflineRecoveryManifest` */
  predicate Scheduled(m: Manifest, t: Tree)
  {
    && m.offlineImages
    && m.repositoryBundle && !Blank(m.cliRevision) && IsFileAt(t, [BUNDLE])
    && m.stackDefinitions && IsDirAt(t, [DEFINITIONS])
  }

  /** `verifiedDeliveredOfflineRecoveryPoint` */
  ghost predicate OfflinePoint(c: Codec, t: Tree)
  {
    IsFileAt(t, [OFFLINE_TAR]) && Delivered(c, t) && Scheduled(ReadManifest(c, t).value, t)
  }

  method IsOfflinePoint(c: Codec, t: Tree, info: Info) returns (r: bool)
    requires info.offline == IsFileAt(t, [OFFLINE_TAR])
    ensures r <==> OfflinePoint(c, t)
  {
    hide Sound, Scheduled, ReadManifest, IsFileAt;
    if !info.offline {
      return false;
    }
    var m := Verify(c, t);
    if m.None? || !Scheduled(m.value, t) {
      return false;
    }
    var k := 0;
    while k < |m.value.artifacts|
      invariant 0 <= k <= |m.value.artifacts|
      invariant forall i :: 0 <= i < k ==> !IsDeliveryEvidence(m.value.artifacts[i])
    {
      if IsDeliveryEvidence(m.value.artifacts[k]) {
        return true;
      }
      k := k + 1;
    }
    return false;
  }

  datatype Kind = All | Standard | OfflineImages

  /** Whether a rotation of this kind counts, and may delete, a backup. Standard
      rotation counts every directory without images, verified or not. */
  ghost predicate Counted(c: Codec, kind: Kind, t: Tree)
  {
    match kind
    case All => true
    case Standard => !IsFileAt(t, [OFFLINE_TAR])
    case OfflineImages => OfflinePoint(c, t)
  }

  ghost function CountedIds(c: Codec, kind: Kind, root: map<string, Tree>): set<string>
  {
    set id | id in root && Listed(root, id) && Counted(c, kind, root[id])
  }

  /** The part of `b` whose ids are in `counted`, in order. */
  ghost function Selected(counted: set<string>, b: seq<Info>): seq<Info>
  {
    if b == [] then []
    else Selected(counted, b[..|b| - 1]) + if b[|b| - 1].id in counted then [b[|b| - 1]] else []
  }

  lemma {:induction false} SelectedMembers(counted: set<string>, b: seq<Info>)
    ensures forall x :: x in Selected(counted, b) <==> x in b && x.id in counted
    ensures |Selected(counted, b)| <= |b|
  {
    if b != [] {
      SelectedMembers(counted, b[..|b| - 1]);
      assert b == b[..|b| - 1] + [b[|b| - 1]];
    }
  }

  /** `filtered := backups[:0]` and the appending loop: the slice shares its array
      with the list it is filtered from, and writes never overtake reads. */
  method FilterInPlace(h: Host, c: Codec, cal: Calendar, kind: Kind, backups: array<Info>) returns (n: nat)
    requires Inspected(c, cal, h.root, backups[..])
    modifies backups
    ensures n <= backups.Length
    ensures backups[..n] == Selected(CountedIds(c, kind, h.root), old(backups[..]))
  {
    hide Counted, CountedIds, Inspected;
    n := 0;
    ghost var all := backups[..];
    ghost var counted := CountedIds(c, kind, h.root);
    var k := 0;
    while k < backups.Length
      invariant 0 <= n <= k <= backups.Length
      invariant backups[..n] == Selected(counted, all[..k])
      invariant forall i :: k <= i < backups.Length ==> backups[i] == all[i]
    {
      var item := backups[k];
      assert all[k] in all;
      var keep := IsCounted(h, c, cal, kind, all, item);
      SelectedStep(counted, all, k);
      if keep {
        ghost var done := backups[..n];
        backups[n] := item;
        n := n + 1;
        assert backups[..n] == done + [item];
      }
      k := k + 1;
    }
    assert all[..|all|] == all;
  }

  lemma SelectedStep(counted: set<string>, all: seq<Info>, k: nat)
    requires k < |all|
    ensures Selected(counted, all[..k + 1]) == Selected(counted, all[..k]) + if all[k].id in counted then [all[k]] else []
  {
    assert all[..k + 1][..k] == all[..k];
  }

  method IsCounted(h: Host, c: Codec, cal: Calendar, kind: Kind, ghost all: seq<Info>, item: Info) returns (keep: bool)
    requires Inspected(c, cal, h.root, all) && item in all
    ensures keep <==> item.id in CountedIds(c, kind, h.root)
  {
    hide OfflinePoint, ReadManifest, IsFileAt, ValidID;
    keep := kind.All?;
    if kind.OfflineImages? {
      keep := IsOfflinePoint(c, h.root[item.id], item);
    } else if kind.Standard? {
      keep := !item.offline;
    }
  }

  /** Deletes from position `keep` on; a failing removal leaves debris and ends the loop. */
  method RemoveFrom(h: Host, b: seq<Info>, keep: nat) returns (ok: bool)
    requires keep <= |b| && Ordered(b)
    modifies h`faults, h`root
    ensures h.faults >= old(h.faults)
    ensures Untouched(Ids(b[keep..]), old(h.root), h.root)
    ensures ok ==> h.root == old(h.root) - Ids(b[keep..])
    ensures h.faults == old(h.faults) ==> ok
  {
    ghost var victims := Ids(b[keep..]);
    var k := keep;
    while k < |b|
      invariant keep <= k <= |b|
      invariant h.faults >= old(h.faults)
      invariant h.root == old(h.root) - Ids(b[keep..k])
    {
      assert b[k] == b[keep..][k - keep] && b[k].id in victims;
      TakeOneMore(b, keep, k);
      ok := h.Attempt();
      if !ok {
        var debris: Option<Tree> := *;
        assert Untouched(victims, old(h.root), h.root) by { PartOfTail(b, keep, k); }
        if debris.Some? {
          h.root := h.root[b[k].id := debris.value];
        } else {
          h.root := h.root - {b[k].id};
        }
        return;
      }
      h.root := h.root - {b[k].id};
      k := k + 1;
    }
    assert b[keep..k] == b[keep..];
    ok := true;
  }

  /** Outside `victims` the backup root is as it was. */
  ghost predicate Untouched(victims: set<string>, before: map<string, Tree>, after: map<string, Tree>)
  {
    forall id :: id !in victims ==> (id in after <==> id in before) && (id in after ==> after[id] == before[id])
  }

  lemma TakeOneMore(b: seq<Info>, keep: nat, k: nat)
    requires keep <= k < |b|
    ensures b[keep..k + 1] == b[keep..k] + [b[k]]
    ensures Ids(b[keep..k + 1]) == Ids(b[keep..k]) + {b[k].id}
  {
  }

  lemma PartOfTail(b: seq<Info>, keep: nat, k: nat)
    requires keep <= k <= |b|
    ensures Ids(b[keep..k]) <= Ids(b[keep..])
  {
    assert b[keep..] == b[keep..k] + b[k..];
  }

  lemma {:induction false} ListingSize(b: seq<Info>)
    requires Ordered(b)
    ensures |Ids(b)| == |b|
    decreases |b|
  {
    if b != [] {
      var n := |b| - 1;
      ListingSize(b[..n]);
      TakeOneMore(b, 0, n);
      assert b[0..n] == b[..n] && b[0..n + 1] == b;
      assert b[n].id !in Ids(b[..n]);
    } else {
      assert Ids(b) == {};
    }
  }

  lemma {:induction false} SelectedInOrder(counted: set<string>, b: seq<Info>)
    requires Ordered(b)
    ensures Ordered(Selected(counted, b))
  {
    if b != [] {
      var n := |b| - 1;
      var rest := Selected(counted, b[..n]);
      SelectedInOrder(counted, b[..n]);
      SelectedMembers(counted, b[..n]);
      forall x | x in b[..n] ensures x.id != b[n].id && x.createdAt >= b[n].createdAt {
        var k :| 0 <= k < n && b[k] == x;
      }
      ExtendOrder(rest, b[n]);
    }
  }

  lemma ExtendOrder(b: seq<Info>, x: Info)
    requires Ordered(b)
    requires forall y :: y in b ==> y.id != x.id && y.createdAt >= x.createdAt
    ensures Ordered(b + [x])
  {
    forall i | 0 <= i < |b| ensures b[i].id != x.id && b[i].createdAt >= x.createdAt {
      assert b[i] in b;
    }
  }

  lemma SelectedIsListing(c: Codec, cal: Calendar, kind: Kind, root: map<string, Tree>, b: seq<Info>)
    requires IsListing(c, cal, root, ListedIds(root), b)
    ensures IsListing(c, cal, root, CountedIds(c, kind, root), Selected(CountedIds(c, kind, root), b))
  {
    hide Counted, Inspect, Listed;
    var counted := CountedIds(c, kind, root);
    SelectedInOrder(counted, b);
    SelectedMembers(counted, b);
    var s := Selected(counted, b);
    forall id ensures id in Ids(s) <==> id in counted {
      if id in counted {
        assert id in Ids(b);
        var x :| x in b && x.id == id;
        assert x in s;
      }
    }
  }

  /** Sorting a second time keeps what is listed and how it is ordered. */
  method SortAgain(c: Codec, cal: Calendar, root: map<string, Tree>, b: seq<Info>) returns (out: seq<Info>)
    requires Ordered(b) && Inspected(c, cal, root, b)
    ensures IsListing(c, cal, root, Ids(b), out)
  {
    out := [];
    var k := 0;
    while k < |b|
      invariant 0 <= k <= |b|
      invariant IsListing(c, cal, root, Ids(b[..k]), out)
    {
      TakeOneMore(b, 0, k);
      assert b[0..k] == b[..k] && b[0..k + 1] == b[..k + 1];
      out := InsertByTime(out, b[k]);
      k := k + 1;
    }
    assert b[..|b|] == b;
  }

  /** Exactly the `keep` newest counted backups (all, if fewer) are spared. */
  ghost predicate RotatedExactly(c: Codec, cal: Calendar, kind: Kind, keep: nat, root: map<string, Tree>,
                                 victims: set<string>)
  {
    var counted := CountedIds(c, kind, root);
    && victims <= counted
    && |counted - victims| == (if |counted| <= keep then |counted| else keep)
    && forall v, k :: v in victims && k in counted - victims ==>
         Inspect(c, cal, v, root[v]).createdAt <= Inspect(c, cal, k, root[k]).createdAt
  }

  lemma ListingTail(c: Codec, cal: Calendar, kind: Kind, root: map<string, Tree>, b: seq<Info>, keep: nat)
    requires IsListing(c, cal, root, CountedIds(c, kind, root), b) && keep <= |b|
    ensures RotatedExactly(c, cal, kind, keep, root, Ids(b[keep..]))
  {
    hide Counted, Inspect, Listed, Ordered, Inspected;
    TailSets(b, keep);
    var kept, gone := b[..keep], b[keep..];
    forall v, k | v in Ids(gone) && k in Ids(kept)
      ensures Inspect(c, cal, v, root[v]).createdAt <= Inspect(c, cal, k, root[k]).createdAt
    {
      TailOrder(c, cal, root, b, keep, v, k);
    }
  }

  lemma TailSets(b: seq<Info>, keep: nat)
    requires Ordered(b) && keep <= |b|
    ensures |Ids(b)| == |b|
    ensures Ids(b) - Ids(b[keep..]) == Ids(b[..keep]) && Ids(b[keep..]) <= Ids(b)
    ensures |Ids(b) - Ids(b[keep..])| == keep
  {
    hide Ordered;
    assert b == b[..keep] + b[keep..];
    ListingSize(b);
    Parted(b, keep);
  }

  lemma TailOrder(c: Codec, cal: Calendar, root: map<string, Tree>, b: seq<Info>, keep: nat, v: string, k: string)
    requires Ordered(b) && Inspected(c, cal, root, b)
    requires keep <= |b| && v in Ids(b[keep..]) && k in Ids(b[..keep])
    ensures v in root && k in root
    ensures Inspect(c, cal, v, root[v]).createdAt <= Inspect(c, cal, k, root[k]).createdAt
  {
    hide Inspect, Ordered;
    Parted(b, keep);
    var x :| x in b[keep..] && x.id == v;
    var y :| y in b[..keep] && y.id == k;
    assert b == b[..keep] + b[keep..];
    assert x in b && y in b;
  }

  lemma Parted(b: seq<Info>, keep: nat)
    requires Ordered(b) && keep <= |b|
    ensures |Ids(b[..keep])| == keep && Ids(b[..keep]) !! Ids(b[keep..])
    ensures forall x, y :: x in b[keep..] && y in b[..keep] ==> x.createdAt <= y.createdAt && x.id != y.id
  {
    forall x, y | x in b[keep..] && y in b[..keep] ensures x.createdAt <= y.createdAt && x.id != y.id {
      var i :| 0 <= i < |b| - keep && b[keep..][i] == x;
      var j :| 0 <= j < keep && b[..keep][j] == y;
      assert b[keep + i] == x && b[j] == y;
    }
    ListingSize(b[..keep]);
  }

  /** `rotateLocalFiltered`. `victims` is what it means to delete, none when the
      list could not be read. Whatever is not a victim stays as it is, even when a
      removal fails midway. */
  method RotateLocalFiltered(h: Host, c: Codec, cal: Calendar, keep: nat, kind: Kind)
    returns (ok: bool, ghost victims: set<string>)
    modifies h`faults, h`root
    ensures h.faults >= old(h.faults)
    ensures ok || victims != {} ==> RotatedExactly(c, cal, kind, keep, old(h.root), victims)
    ensures Untouched(victims, old(h.root), h.root)
    ensures ok ==> h.root == old(h.root) - victims
    ensures |CountedIds(c, kind, old(h.root))| <= keep ==> h.root == old(h.root)
    ensures h.faults == old(h.faults) ==> ok
  {
    ghost var before := h.root;
    victims := {};
    var backups;
    ok, backups := List(h, c, cal);
    if !ok {
      return;
    }
    var items := new Info[|backups|](i requires 0 <= i < |backups| => backups[i]);
    assert items[..] == backups;
    var n := FilterInPlace(h, c, cal, kind, items);
    var chosen := items[..n];
    SelectedIsListing(c, cal, kind, before, backups);
    assert Ids(chosen) == CountedIds(c, kind, before);
    ListingSize(chosen);
    if n <= keep {
      assert before == before - {};
      return;
    }
    chosen := SortAgain(c, cal, h.root, chosen);
    ListingSize(chosen);
    ListingTail(c, cal, kind, before, chosen, keep);
    victims := Ids(chosen[keep..]);
    ok := RemoveFrom(h, chosen, keep);
  }

  // ------------------------------------------------------------ consequences

  /** However far the removals got, at least `min(keep, count)` counted backups are
      still there and still count. */
  lemma SurvivorsCount(c: Codec, cal: Calendar, kind: Kind, keep: nat, before: map<string, Tree>,
                       after: map<string, Tree>, victims: set<string>)
    requires RotatedExactly(c, cal, kind, keep, before, victims) && Untouched(victims, before, after)
    ensures var counted := CountedIds(c, kind, before);
      |CountedIds(c, kind, after)| >= if |counted| <= keep then |counted| else keep
  {
    var kept := CountedIds(c, kind, before) - victims;
    forall id | id in kept ensures id in CountedIds(c, kind, after) { }
    SubsetSize(kept, CountedIds(c, kind, after));
  }

  lemma {:induction false} SubsetSize(a: set<string>, b: set<string>)
    requires a <= b
    ensures |a| <= |b|
  {
    assert b == a + (b - a);
  }

  /** After a completed rotation a second one of the same kind finds nothing to delete. */
  lemma RotationSettles(c: Codec, cal: Calendar, kind: Kind, keep: nat, root: map<string, Tree>, victims: set<string>)
    requires RotatedExactly(c, cal, kind, keep, root, victims)
    ensures CountedIds(c, kind, root - victims) == CountedIds(c, kind, root) - victims
    ensures |CountedIds(c, kind, root - victims)| <= keep
  {
  }

  /** A counted backup strictly newer than every other one is never a victim. */
  lemma NewestSurvives(c: Codec, cal: Calendar, kind: Kind, keep: nat, root: map<string, Tree>, victims: set<string>,
                       id: string)
    requires RotatedExactly(c, cal, kind, keep, root, victims) && keep > 0
    requires id in CountedIds(c, kind, root)
    requires forall k :: k in CountedIds(c, kind, root) && k != id ==>
      Inspect(c, cal, k, root[k]).createdAt < Inspect(c, cal, id, root[id]).createdAt
    ensures id !in victims
  {
    var counted := CountedIds(c, kind, root);
    assert id in counted;
    assert |counted - victims| > 0;
    var k :| k in counted - victims;
  }

  /** A rotation of one kind never deletes a backup of the other. */
  lemma KindsAreDisjoint(c: Codec, root: map<string, Tree>)
    ensures CountedIds(c, Standard, root) !! CountedIds(c, OfflineImages, root)
  {
  }
}
