/** Which archives a run can rewrite to: the exact condition, in terms of which image
    references occur in which others, for tags made of one prefix and a number. */
module ImageTags {
  import opened Manifests
  import opened ImageRewrite

  predicate Numeral(c: char) { '0' <= c <= '9' }

  predicate Numerals(s: string)
  {
    forall i :: 0 <= i < |s| ==> Numeral(s[i])
  }

  predicate GoodPrefix(prefix: string)
  {
    prefix != "" && !Numeral(prefix[|prefix| - 1])
  }

  predicate Minted(prefix: string, tag: string)
  {
    prefix <= tag && Numerals(tag[|prefix|..])
  }

  /** Every tag is the prefix and a number. */
  predicate AllMinted(prefix: string, archives: seq<ImageArchive>)
  {
    forall i :: 0 <= i < |archives| ==> Minted(prefix, archives[i].tag)
  }

  /** No image of the run is itself named after the run's prefix. */
  predicate Fresh(prefix: string, archives: seq<ImageArchive>)
  {
    forall i :: 0 <= i < |archives| ==> !Occurs(prefix, archives[i].source)
  }

  /** Source and tag of archive `j` continue those of archive `k` by the same text. */
  predicate Extends(archives: seq<ImageArchive>, k: nat, j: nat)
    requires k < |archives| && j < |archives|
  {
    var a, b := archives[k], archives[j];
    && a.source <= b.source && a.tag <= b.tag && b.source[|a.source|..] == b.tag[|a.tag|..]
    && !Occurs(a.source, b.source[|a.source|..])
  }

  /** The source of archive `j` is first met by archive `k`, which already gives it
      its own tag, and nothing later touches that tag. Usually `k` is `j`. */
  predicate Arrives(archives: seq<ImageArchive>, k: nat, j: nat)
    requires k < |archives| && j < |archives|
  {
    && (forall i :: 0 <= i < k ==> !Occurs(archives[i].source, archives[j].source))
    && Extends(archives, k, j)
    && (forall i :: k < i < |archives| ==> !Occurs(archives[i].source, archives[j].tag))
  }

  /** Stated of the list alone: which sources occur in which sources and tags. */
  predicate Disentangled(archives: seq<ImageArchive>)
  {
    forall j :: 0 <= j < |archives| ==> Rewritable(archives, j)
  }

  predicate Rewritable(archives: seq<ImageArchive>, j: nat)
    requires j < |archives|
  {
    exists k :: 0 <= k <= j && Arrives(archives, k, j)
  }

  /** The common case: no source occurs in a later source or in an earlier tag. */
  predicate InOrder(archives: seq<ImageArchive>)
  {
    forall i, j :: 0 <= i < j < |archives| ==>
      !Occurs(archives[i].source, archives[j].source) && !Occurs(archives[j].source, archives[i].tag)
  }

  // -------------------------------------------------------------- occurrences

  lemma OccursWithin(pat: string, a: string, b: string, c: string)
    requires Occurs(pat, b)
    ensures Occurs(pat, a + b + c)
  {
    var i :| 0 <= i <= |b| && OccursAt(pat, b, i);
    assert (a + b + c)[|a| + i..] == b[i..] + c;
    assert OccursAt(pat, a + b + c, |a| + i);
  }

  lemma NotInNothing(pat: string)
    requires pat != ""
    ensures !Occurs(pat, "")
  {
  }

  /** Replacement acts on the first occurrence and goes on behind it. */
  lemma {:induction false} ReplaceFirst(s: string, pat: string, rep: string) returns (u: string, v: string)
    requires pat != "" && Occurs(pat, s)
    ensures s == u + pat + v && ReplaceAll(s, pat, rep) == u + rep + ReplaceAll(v, pat, rep)
    decreases |s|
  {
    hide ReplaceAll;
    if s == "" {
      NotInNothing(pat);
      assert false;
      u, v := "", "";
    } else if pat <= s {
      HeadHit(s, pat, rep);
      u, v := "", s[|pat|..];
    } else {
      OccursLater(pat, s);
      var u1;
      u1, v := ReplaceFirst(s[1..], pat, rep);
      u := [s[0]] + u1;
      HeadMiss(s, pat, rep, u1, v);
    }
  }

  lemma HeadHit(s: string, pat: string, rep: string)
    requires pat != "" && pat <= s
    ensures s == "" + pat + s[|pat|..] && ReplaceAll(s, pat, rep) == "" + rep + ReplaceAll(s[|pat|..], pat, rep)
  {
    ReplaceStep(s, pat, rep);
    hide ReplaceAll;
    var rest := s[|pat|..];
    Rejoin(s, pat);
    Lead(pat, rest);
    Lead(rep, ReplaceAll(rest, pat, rep));
  }

  lemma Rejoin(s: string, pat: string)
    requires pat <= s
    ensures s == pat + s[|pat|..]
  {
  }

  lemma Lead(a: string, b: string)
    ensures "" + a + b == a + b
  {
    assert "" + a == a;
  }

  lemma HeadMiss(s: string, pat: string, rep: string, u: string, v: string)
    requires pat != "" && s != "" && !(pat <= s) && s[1..] == u + pat + v
    requires ReplaceAll(s[1..], pat, rep) == u + rep + ReplaceAll(v, pat, rep)
    ensures s == [s[0]] + u + pat + v && ReplaceAll(s, pat, rep) == [s[0]] + u + rep + ReplaceAll(v, pat, rep)
  {
    ReplaceStep(s, pat, rep);
    hide ReplaceAll;
    assert s == [s[0]] + s[1..];
    InFront([s[0]], u, pat, v);
    InFront([s[0]], u, rep, ReplaceAll(v, pat, rep));
  }

  lemma InFront(a: string, b: string, c: string, d: string)
    ensures a + (b + c + d) == a + b + c + d
  {
  }

  lemma OccursLater(pat: string, s: string)
    requires Occurs(pat, s) && !(pat <= s) && s != ""
    ensures Occurs(pat, s[1..])
  {
    var i :| 0 <= i <= |s| && OccursAt(pat, s, i);
    assert s[0..] == s;
    assert i > 0 && s[1..][i - 1..] == s[i..];
    assert OccursAt(pat, s[1..], i - 1);
  }

  /** A tag inside a tag is its beginning, because the prefix ends in no digit. */
  lemma TagInside(prefix: string, tag: string, inner: string, u: string, w: string)
    requires GoodPrefix(prefix) && Minted(prefix, tag) && Minted(prefix, inner) && tag == u + inner + w
    ensures u == "" && Numerals(w) && tag == inner + w
  {
    var at := |u| + |prefix| - 1;
    assert inner[..|prefix|] == prefix && inner[|prefix| - 1] == prefix[|prefix| - 1];
    assert tag[at] == prefix[|prefix| - 1];
    assert forall m :: |prefix| <= m < |tag| ==> tag[m] == tag[|prefix|..][m - |prefix|];
    assert u == "" && tag == inner + w;
    forall i | 0 <= i < |w| ensures Numeral(w[i]) {
      assert tag[|prefix|..][|inner| - |prefix| + i] == w[i];
    }
  }

  lemma NoPrefixInNumerals(prefix: string, s: string)
    requires GoodPrefix(prefix) && Numerals(s)
    ensures !Occurs(prefix, s)
  {
    forall i | 0 <= i <= |s| ensures !OccursAt(prefix, s, i) {
      if |prefix| <= |s[i..]| {
        assert Numeral(s[i..][|prefix| - 1]);
      }
    }
  }

  /** The prefix cannot begin in `a` and end in digits behind it. */
  lemma PrefixBeforeNumerals(prefix: string, a: string, z: string)
    requires GoodPrefix(prefix) && Numerals(z) && Occurs(prefix, a + z)
    ensures Occurs(prefix, a)
  {
    var s := a + z;
    var i :| 0 <= i <= |s| && OccursAt(prefix, s, i);
    var last := i + |prefix| - 1;
    assert s[i..][|prefix| - 1] == s[last] == prefix[|prefix| - 1];
    assert last < |a| by {
      assert forall m :: |a| <= m < |s| ==> s[m] == z[m - |a|];
    }
    assert prefix == s[i..][..|prefix|] == s[i..i + |prefix|] == a[i..i + |prefix|];
    assert a[i..][..|prefix|] == prefix;
    assert OccursAt(prefix, a, i);
  }

  // ----------------------------------------------------------- one replacement

  /** If replacing something yields exactly a tag of the run, the text was the source
      followed by digits. */
  lemma Landed(prefix: string, f: string, source: string, inner: string, tag: string)
    requires GoodPrefix(prefix) && Minted(prefix, tag) && Minted(prefix, inner) && source != ""
    requires Occurs(source, f) && ReplaceAll(f, source, inner) == tag
    ensures source <= f && inner <= tag && f[|source|..] == tag[|inner|..]
    ensures Numerals(f[|source|..]) && !Occurs(source, f[|source|..])
  {
    hide ReplaceAll, Occurs;
    var u, v := ReplaceFirst(f, source, inner);
    var w := ReplaceAll(v, source, inner);
    TagInside(prefix, tag, inner, u, w);
    assert f == source + v && f[|source|..] == v && tag[|inner|..] == w;
    if Occurs(source, v) {
      var a, b := ReplaceFirst(v, source, inner);
      PrefixOccurs(prefix, inner);
      OccursWithin(prefix, a, inner, ReplaceAll(b, source, inner));
      NoPrefixInNumerals(prefix, w);
    } else {
      ReplaceNothing(v, source, inner);
    }
  }

  lemma PrefixOccurs(prefix: string, tag: string)
    requires prefix <= tag
    ensures Occurs(prefix, tag)
  {
    assert tag[0..] == tag;
    assert OccursAt(prefix, tag, 0);
  }

  lemma StepKeepsPrefix(prefix: string, f: string, source: string, inner: string)
    requires Minted(prefix, inner) && source != "" && Occurs(prefix, f)
    ensures Occurs(prefix, ReplaceAll(f, source, inner))
  {
    hide ReplaceAll, Occurs;
    if Occurs(source, f) {
      var u, v := ReplaceFirst(f, source, inner);
      PrefixOccurs(prefix, inner);
      OccursWithin(prefix, u, inner, ReplaceAll(v, source, inner));
    } else {
      ReplaceNothing(f, source, inner);
    }
  }

  // ------------------------------------------------------------ the whole list

  lemma {:induction false} KeepsPrefix(prefix: string, f: string, b: seq<ImageArchive>)
    requires AllMinted(prefix, b) && NonEmptySources(b) && Occurs(prefix, f)
    ensures Occurs(prefix, Rewritten(f, b))
    decreases |b|
  {
    hide Occurs, ReplaceAll;
    if b != [] {
      var n := |b| - 1;
      KeepsPrefix(prefix, f, b[..n]);
      StepKeepsPrefix(prefix, Rewritten(f, b[..n]), b[n].source, b[n].tag);
    }
  }

  /** A text that shows the prefix can end as a tag only by being that tag already. */
  lemma {:induction false} NothingMore(prefix: string, f: string, b: seq<ImageArchive>, tag: string)
    requires GoodPrefix(prefix) && AllMinted(prefix, b) && NonEmptySources(b) && Fresh(prefix, b) && Minted(prefix, tag)
    requires Occurs(prefix, f) && Rewritten(f, b) == tag
    ensures f == tag && Inert(tag, b)
    decreases |b|
  {
    hide Occurs, ReplaceAll;
    if b != [] {
      var n := |b| - 1;
      var g := Rewritten(f, b[..n]);
      KeepsPrefix(prefix, f, b[..n]);
      if Occurs(b[n].source, g) {
        Landed(prefix, g, b[n].source, b[n].tag, tag);
        assert g == b[n].source + g[|b[n].source|..];
        PrefixBeforeNumerals(prefix, b[n].source, g[|b[n].source|..]);
        assert false;
      }
      ReplaceNothing(g, b[n].source, b[n].tag);
      NothingMore(prefix, f, b[..n], tag);
      forall i | 0 <= i < |b| ensures !Occurs(b[i].source, tag) {
        assert i < n ==> b[..n][i] == b[i];
      }
    }
  }

  lemma {:induction false} RewrittenInTwo(s: string, a: seq<ImageArchive>, k: nat)
    requires k <= |a|
    ensures Rewritten(s, a) == Rewritten(Rewritten(s, a[..k]), a[k..])
    decreases |a|
  {
    hide ReplaceAll;
    if k < |a| {
      var n := |a| - 1;
      RewrittenInTwo(s, a[..n], k);
      assert a[..n][..k] == a[..k] && a[..n][k..] == a[k..][..n - k];
      assert a[k..][n - k] == a[n];
    } else {
      assert a[..k] == a && a[k..] == [];
    }
  }

  lemma RewrittenOne(s: string, a: ImageArchive)
    ensures Rewritten(s, [a]) == ReplaceAll(s, a.source, a.tag)
  {
    assert [a][..0] == [];
    assert Rewritten(s, []) == s;
  }

  /** From the first archive whose source occurs: that one replaces, then the rest. */
  lemma FirstHit(s: string, a: seq<ImageArchive>, k: nat)
    requires NonEmptySources(a) && k < |a| && forall i :: 0 <= i < k ==> !Occurs(a[i].source, s)
    ensures Rewritten(s, a) == Rewritten(ReplaceAll(s, a[k].source, a[k].tag), a[k + 1..])
  {
    hide ReplaceAll, Occurs;
    RewrittenInTwo(s, a, k);
    assert Inert(s, a[..k]);
    InertStays(s, a[..k]);
    RewrittenInTwo(s, a[k..], 1);
    assert a[k..][..1] == [a[k]] && a[k..][1..] == a[k + 1..];
    RewrittenOne(s, a[k]);
  }

  lemma {:induction false} FirstOccurring(s: string, a: seq<ImageArchive>, j: nat) returns (k: nat)
    requires j < |a| && Occurs(a[j].source, s)
    ensures k <= j && Occurs(a[k].source, s) && forall i :: 0 <= i < k ==> !Occurs(a[i].source, s)
  {
    hide Occurs;
    k := 0;
    while !Occurs(a[k].source, s)
      invariant 0 <= k <= j && forall i :: 0 <= i < k ==> !Occurs(a[i].source, s)
      decreases j - k
    {
      k := k + 1;
    }
  }

  lemma ArrivingGetsTag(a: seq<ImageArchive>, k: nat, j: nat)
    requires NonEmptySources(a) && k < |a| && j < |a| && Arrives(a, k, j)
    ensures Rewritten(a[j].source, a) == a[j].tag
  {
    hide ReplaceAll, Occurs;
    var s, z := a[j].source, a[j].source[|a[k].source|..];
    FirstHit(s, a, k);
    assert s == a[k].source + z;
    ReplaceStep(s, a[k].source, a[k].tag);
    ReplaceNothing(z, a[k].source, a[k].tag);
    assert a[j].tag == a[k].tag + z;
    var rest := a[k + 1..];
    forall i | 0 <= i < |rest| ensures !Occurs(rest[i].source, a[j].tag) {
      assert rest[i] == a[k + 1 + i];
    }
    InertStays(a[j].tag, rest);
  }

  lemma GetsTagByArriving(prefix: string, a: seq<ImageArchive>, j: nat) returns (k: nat)
    requires GoodPrefix(prefix) && AllMinted(prefix, a) && NonEmptySources(a) && Fresh(prefix, a) && j < |a|
    requires Rewritten(a[j].source, a) == a[j].tag
    ensures k <= j && Arrives(a, k, j)
  {
    OccursInItself(a[j].source);
    hide ReplaceAll, Occurs;
    k := FirstOccurring(a[j].source, a, j);
    FirstHit(a[j].source, a, k);
    var g := ReplaceAll(a[j].source, a[k].source, a[k].tag);
    var u, v := ReplaceFirst(a[j].source, a[k].source, a[k].tag);
    PrefixOccurs(prefix, a[k].tag);
    OccursWithin(prefix, u, a[k].tag, ReplaceAll(v, a[k].source, a[k].tag));
    var rest := a[k + 1..];
    forall i | 0 <= i < |rest| ensures Minted(prefix, rest[i].tag) && rest[i].source != "" && !Occurs(prefix, rest[i].source) {
      assert rest[i] == a[k + 1 + i];
    }
    NothingMore(prefix, g, rest, a[j].tag);
    Landed(prefix, a[j].source, a[k].source, a[k].tag, a[j].tag);
    forall i | k < i < |a| ensures !Occurs(a[i].source, a[j].tag) {
      assert rest[i - k - 1] == a[i];
    }
  }

  /** Exactly when a run's archives can be written into its definitions at one stroke,
      stated before the call: by occurrences alone. */
  lemma RewritableExactly(prefix: string, a: seq<ImageArchive>)
    requires GoodPrefix(prefix) && AllMinted(prefix, a) && NonEmptySources(a) && DistinctSources(a) && Fresh(prefix, a)
    ensures RewritesSimultaneously(a) <==> Disentangled(a)
  {
    hide Rewritten, RewritesSimultaneously, Occurs;
    SimultaneousExactly(a);
    forall j | 0 <= j < |a| ensures Renamed(a[j].source, a) == a[j].tag {
      RenamedFirst(a, j);
    }
    if Disentangled(a) {
      forall j | 0 <= j < |a| ensures Rewritten(a[j].source, a) == Renamed(a[j].source, a) {
        assert Rewritable(a, j);
        var k :| 0 <= k <= j && Arrives(a, k, j);
        ArrivingGetsTag(a, k, j);
      }
    }
    if RewritesSimultaneously(a) {
      forall j | 0 <= j < |a| ensures Rewritable(a, j) {
        var k := GetsTagByArriving(prefix, a, j);
      }
    }
  }

  /** With tags of one length, as up to 999 images have, the condition is the common
      case. */
  lemma SameLengthInOrder(a: seq<ImageArchive>)
    requires NonEmptySources(a) && DistinctTags(a)
    requires forall i, j :: 0 <= i < |a| && 0 <= j < |a| ==> |a[i].tag| == |a[j].tag|
    ensures Disentangled(a) <==> InOrder(a)
  {
    hide Occurs;
    forall j, k | 0 <= j < |a| && 0 <= k < |a| ensures Extends(a, k, j) ==> k == j {
      assert |a[k].tag| == |a[j].tag|;
    }
    if InOrder(a) {
      forall j | 0 <= j < |a| ensures Rewritable(a, j) {
        NotInNothing(a[j].source);
        assert a[j].source[|a[j].source|..] == "" && a[j].tag[|a[j].tag|..] == "";
        assert Arrives(a, j, j);
      }
    }
    if Disentangled(a) {
      forall i, j | 0 <= i < j < |a|
        ensures !Occurs(a[i].source, a[j].source) && !Occurs(a[j].source, a[i].tag)
      {
        assert Rewritable(a, j) && Rewritable(a, i);
        var k :| 0 <= k <= j && Arrives(a, k, j);
        var m :| 0 <= m <= i && Arrives(a, m, i);
      }
    }
  }
}
