/** Rewriting image references in rendered stack files: one `strings.ReplaceAll`
    per archived image, one after the other. */
module ImageRewrite {
  import opened Text
  import opened Trees
  import opened Manifests

  /** `strings.ReplaceAll` */
  function ReplaceAll(s: string, pattern: string, replacement: string): string
  {
    if pattern == "" then Interleave(s, replacement)
    else if s == "" then ""
    else if pattern <= s then replacement + ReplaceAll(s[|pattern|..], pattern, replacement)
    else [s[0]] + ReplaceAll(s[1..], pattern, replacement)
  }

  function Interleave(s: string, replacement: string): string
  {
    if s == "" then replacement else replacement + [s[0]] + Interleave(s[1..], replacement)
  }

  function Rewritten(s: string, archives: seq<ImageArchive>): string
  {
    if archives == [] then s
    else
      var n := |archives| - 1;
      ReplaceAll(Rewritten(s, archives[..n]), archives[n].source, archives[n].tag)
  }

  method RewriteText(data: string, archives: seq<ImageArchive>) returns (updated: string)
    ensures updated == Rewritten(data, archives)
  {
    updated := data;
    var k := 0;
    while k < |archives|
      invariant 0 <= k <= |archives|
      invariant updated == Rewritten(data, archives[..k])
    {
      updated := ReplaceAll(updated, archives[k].source, archives[k].tag);
      assert archives[..k + 1][..k] == archives[..k];
      k := k + 1;
    }
    assert archives[..|archives|] == archives;
  }

  /** Every file below `t` rewritten, names and modes kept. */
  function RewrittenTree(t: Tree, archives: seq<ImageArchive>): Tree
  {
    match t
    case File(d, p) => File(Rewritten(d, archives), p)
    case Dir(kids, p) => Dir(map n | n in kids :: RewrittenTree(kids[n], archives), p)
    case Special => Special
  }

  // --------------------------------------------------- texts made of fields

  /** Fields separated by single delimiter characters. */
  function Render(fields: seq<string>, seps: seq<char>): string
    requires |fields| == |seps| + 1
  {
    if seps == [] then fields[0] else fields[0] + [seps[0]] + Render(fields[1..], seps[1..])
  }

  predicate OccursAt(pat: string, s: string, i: nat)
  {
    i <= |s| && pat <= s[i..]
  }

  predicate Occurs(pat: string, s: string)
  {
    exists i :: 0 <= i <= |s| && OccursAt(pat, s, i)
  }

  /** The tag of the first archive whose source is exactly `f`, or `f` itself. */
  function Renamed(f: string, archives: seq<ImageArchive>): string
  {
    if archives == [] then f
    else if archives[0].source == f then archives[0].tag
    else Renamed(f, archives[1..])
  }

  function RenamedAll(fields: seq<string>, archives: seq<ImageArchive>): (r: seq<string>)
    ensures |r| == |fields|
  {
    seq(|fields|, i requires 0 <= i < |fields| => Renamed(fields[i], archives))
  }

  predicate IsSource(f: string, archives: seq<ImageArchive>)
  {
    exists i :: 0 <= i < |archives| && archives[i].source == f
  }

  /** No image source occurs anywhere in `f`. */
  predicate Inert(f: string, archives: seq<ImageArchive>)
  {
    forall i :: 0 <= i < |archives| ==> !Occurs(archives[i].source, f)
  }

  /** A text in which image references stand alone between delimiters. */
  predicate WellDelimited(fields: seq<string>, seps: seq<char>, archives: seq<ImageArchive>)
  {
    && |fields| == |seps| + 1
    && (forall i, j :: 0 <= i < |seps| && 0 <= j < |archives| ==> seps[i] !in archives[j].source)
    && (forall i :: 0 <= i < |fields| ==> IsSource(fields[i], archives) || Inert(fields[i], archives))
  }

  predicate NonEmptySources(archives: seq<ImageArchive>)
  {
    forall i :: 0 <= i < |archives| ==> archives[i].source != ""
  }

  // ------------------------------------------------------------ replacement

  lemma ReachesDelimiter(a: string, c: char, b: string, pat: string)
    requires pat <= a + [c] + b && !(pat <= a)
    ensures c in pat
  {
    var s := a + [c] + b;
    assert pat == s[..|pat|];
    assert |pat| > |a|;
    assert pat[|a|] == s[|a|] == c;
  }

  lemma ReplaceStep(s: string, pattern: string, replacement: string)
    requires pattern != "" && s != ""
    ensures pattern <= s ==> ReplaceAll(s, pattern, replacement) == replacement + ReplaceAll(s[|pattern|..], pattern, replacement)
    ensures !(pattern <= s) ==> ReplaceAll(s, pattern, replacement) == [s[0]] + ReplaceAll(s[1..], pattern, replacement)
  {
  }

  lemma PutBefore(x: string, y: string, c: char, z: string)
    ensures x + (y + [c] + z) == (x + y) + [c] + z
  {
  }

  lemma Ahead(a: string, c: char, b: string, k: nat)
    requires 0 < k <= |a|
    ensures (a + [c] + b)[k..] == a[k..] + [c] + b
    ensures (a + [c] + b)[0] == a[0]
  {
  }

  /** A character that is not in the pattern separates: the two sides are replaced
      independently of each other. */
  lemma {:induction false} ReplaceAcross(a: string, c: char, b: string, pattern: string, replacement: string)
    requires pattern != "" && c !in pattern
    ensures ReplaceAll(a + [c] + b, pattern, replacement) == ReplaceAll(a, pattern, replacement) + [c] + ReplaceAll(b, pattern, replacement)
    decreases |a|
  {
    if a == "" {
      Delimiter(c, b, pattern, replacement);
    } else {
      hide ReplaceAll;
      NotSooner(a, [c] + b, pattern);
      assert a + ([c] + b) == a + [c] + b;
      if pattern <= a {
        ReplaceAcross(a[|pattern|..], c, b, pattern, replacement);
        HitBefore(a, c, b, pattern, replacement);
      } else {
        if pattern <= a + [c] + b {
          ReachesDelimiter(a, c, b, pattern);
        }
        ReplaceAcross(a[1..], c, b, pattern, replacement);
        MissBefore(a, c, b, pattern, replacement);
      }
    }
  }

  lemma Delimiter(c: char, b: string, pattern: string, replacement: string)
    requires pattern != "" && c !in pattern
    ensures ReplaceAll("" + [c] + b, pattern, replacement) == ReplaceAll("", pattern, replacement) + [c] + ReplaceAll(b, pattern, replacement)
  {
    var s := "" + [c] + b;
    assert s[0] == c && s[1..] == b;
    ReplaceStep(s, pattern, replacement);
    assert pattern[0] in pattern;
  }

  lemma HitBefore(a: string, c: char, b: string, pattern: string, replacement: string)
    requires pattern != "" && pattern <= a && pattern <= a + [c] + b
    requires var rest := a[|pattern|..];
      ReplaceAll(rest + [c] + b, pattern, replacement) == ReplaceAll(rest, pattern, replacement) + [c] + ReplaceAll(b, pattern, replacement)
    ensures ReplaceAll(a + [c] + b, pattern, replacement) == ReplaceAll(a, pattern, replacement) + [c] + ReplaceAll(b, pattern, replacement)
  {
    hide ReplaceAll;
    Ahead(a, c, b, |pattern|);
    ReplaceStep(a, pattern, replacement);
    ReplaceStep(a + [c] + b, pattern, replacement);
    PutBefore(replacement, ReplaceAll(a[|pattern|..], pattern, replacement), c, ReplaceAll(b, pattern, replacement));
  }

  lemma MissBefore(a: string, c: char, b: string, pattern: string, replacement: string)
    requires pattern != "" && a != "" && !(pattern <= a) && !(pattern <= a + [c] + b)
    requires ReplaceAll(a[1..] + [c] + b, pattern, replacement) == ReplaceAll(a[1..], pattern, replacement) + [c] + ReplaceAll(b, pattern, replacement)
    ensures ReplaceAll(a + [c] + b, pattern, replacement) == ReplaceAll(a, pattern, replacement) + [c] + ReplaceAll(b, pattern, replacement)
  {
    hide ReplaceAll;
    Ahead(a, c, b, 1);
    ReplaceStep(a, pattern, replacement);
    ReplaceStep(a + [c] + b, pattern, replacement);
    PutBefore([a[0]], ReplaceAll(a[1..], pattern, replacement), c, ReplaceAll(b, pattern, replacement));
  }

  lemma NotSooner(a: string, rest: string, pat: string)
    ensures pat <= a ==> pat <= a + rest
  {
  }

  lemma {:induction false} ReplaceNothing(s: string, pattern: string, replacement: string)
    requires pattern != "" && !Occurs(pattern, s)
    ensures ReplaceAll(s, pattern, replacement) == s
    decreases |s|
  {
    if s != "" {
      assert s[0..] == s;
      assert !OccursAt(pattern, s, 0);
      forall i | 0 <= i <= |s[1..]| ensures !OccursAt(pattern, s[1..], i) {
        assert s[1..][i..] == s[i + 1..];
        assert !OccursAt(pattern, s, i + 1);
      }
      ReplaceNothing(s[1..], pattern, replacement);
      assert s == [s[0]] + s[1..];
    }
  }

  lemma ReplaceWhole(pattern: string, replacement: string)
    requires pattern != ""
    ensures ReplaceAll(pattern, pattern, replacement) == replacement
  {
    assert pattern[|pattern|..] == "";
  }

  function EachRewritten(fields: seq<string>, archives: seq<ImageArchive>): (r: seq<string>)
    ensures |r| == |fields|
  {
    seq(|fields|, i requires 0 <= i < |fields| => Rewritten(fields[i], archives))
  }

  function EachReplaced(fields: seq<string>, pattern: string, replacement: string): (r: seq<string>)
    ensures |r| == |fields|
  {
    seq(|fields|, i requires 0 <= i < |fields| => ReplaceAll(fields[i], pattern, replacement))
  }

  lemma {:induction false} ReplaceFieldwise(fields: seq<string>, seps: seq<char>, pattern: string, replacement: string)
    requires |fields| == |seps| + 1 && pattern != ""
    requires forall i :: 0 <= i < |seps| ==> seps[i] !in pattern
    ensures ReplaceAll(Render(fields, seps), pattern, replacement) == Render(EachReplaced(fields, pattern, replacement), seps)
    decreases |seps|
  {
    if seps != [] {
      ReplaceAcross(fields[0], seps[0], Render(fields[1..], seps[1..]), pattern, replacement);
      ReplaceFieldwise(fields[1..], seps[1..], pattern, replacement);
      assert EachReplaced(fields, pattern, replacement)[1..] == EachReplaced(fields[1..], pattern, replacement);
    }
  }

  /** Delimiters no source contains split the rewriting into one per field. */
  lemma {:induction false} RewriteFieldwise(fields: seq<string>, seps: seq<char>, archives: seq<ImageArchive>)
    requires |fields| == |seps| + 1 && NonEmptySources(archives)
    requires forall i, j :: 0 <= i < |seps| && 0 <= j < |archives| ==> seps[i] !in archives[j].source
    ensures Rewritten(Render(fields, seps), archives) == Render(EachRewritten(fields, archives), seps)
    decreases |archives|
  {
    if archives == [] {
      assert EachRewritten(fields, archives) == fields;
    } else {
      var n := |archives| - 1;
      RewriteFieldwise(fields, seps, archives[..n]);
      var before := EachRewritten(fields, archives[..n]);
      ReplaceFieldwise(before, seps, archives[n].source, archives[n].tag);
      assert EachReplaced(before, archives[n].source, archives[n].tag) == EachRewritten(fields, archives);
    }
  }

  lemma {:induction false} InertStays(f: string, archives: seq<ImageArchive>)
    requires NonEmptySources(archives) && Inert(f, archives)
    ensures Rewritten(f, archives) == f
    decreases |archives|
  {
    if archives != [] {
      var n := |archives| - 1;
      InertStays(f, archives[..n]);
      ReplaceNothing(f, archives[n].source, archives[n].tag);
    }
  }

  lemma {:induction false} InertKeepsName(f: string, archives: seq<ImageArchive>)
    requires Inert(f, archives)
    ensures Renamed(f, archives) == f
    decreases |archives|
  {
    if archives != [] {
      var first := archives[0].source;
      assert !Occurs(first, f);
      if first == f {
        assert OccursAt(first, f, 0);
      }
      InertKeepsName(f, archives[1..]);
    }
  }

  // ------------------------------------------------------------ the results

  ghost predicate RewritesSimultaneously(archives: seq<ImageArchive>)
  {
    forall fields, seps :: WellDelimited(fields, seps, archives) ==>
      Rewritten(Render(fields, seps), archives) == Render(RenamedAll(fields, archives), seps)
  }

  /** Exact condition, checkable on the list alone: rewriting every well delimited
      text is one simultaneous substitution exactly when each source, rewritten by
      itself, becomes its own tag. */
  lemma SimultaneousExactly(archives: seq<ImageArchive>)
    requires NonEmptySources(archives)
    ensures RewritesSimultaneously(archives) <==>
      forall i :: 0 <= i < |archives| ==> Rewritten(archives[i].source, archives) == Renamed(archives[i].source, archives)
  {
    if RewritesSimultaneously(archives) {
      forall i | 0 <= i < |archives|
        ensures Rewritten(archives[i].source, archives) == Renamed(archives[i].source, archives)
      {
        var fields, seps: seq<char> := [archives[i].source], [];
        assert IsSource(fields[0], archives);
        assert WellDelimited(fields, seps, archives);
        assert Render(fields, seps) == archives[i].source;
        assert Render(RenamedAll(fields, archives), seps) == Renamed(archives[i].source, archives);
      }
    }
    if forall i :: 0 <= i < |archives| ==> Rewritten(archives[i].source, archives) == Renamed(archives[i].source, archives) {
      forall fields, seps | WellDelimited(fields, seps, archives)
        ensures Rewritten(Render(fields, seps), archives) == Render(RenamedAll(fields, archives), seps)
      {
        RewriteFieldwise(fields, seps, archives);
        forall k | 0 <= k < |fields| ensures Rewritten(fields[k], archives) == Renamed(fields[k], archives) {
          if Inert(fields[k], archives) {
            InertStays(fields[k], archives);
            InertKeepsName(fields[k], archives);
          }
        }
        assert EachRewritten(fields, archives) == RenamedAll(fields, archives);
      }
    }
  }

  /** Sources do not occur in sources handled later, nor in any tag. */
  predicate Untangled(archives: seq<ImageArchive>)
  {
    && (forall i, j :: 0 <= i < j < |archives| ==> !Occurs(archives[i].source, archives[j].source))
    && (forall i, j :: 0 <= i < |archives| && 0 <= j < |archives| ==> !Occurs(archives[i].source, archives[j].tag))
  }

  lemma {:induction false} SourceBecomesTag(archives: seq<ImageArchive>, j: nat)
    requires NonEmptySources(archives) && Untangled(archives) && j < |archives|
    ensures Rewritten(archives[j].source, archives) == archives[j].tag
    decreases |archives|
  {
    var n := |archives| - 1;
    if j == n {
      assert Inert(archives[n].source, archives[..n]);
      InertStays(archives[n].source, archives[..n]);
      ReplaceWhole(archives[n].source, archives[n].tag);
    } else {
      SourceBecomesTag(archives[..n], j);
      ReplaceNothing(archives[j].tag, archives[n].source, archives[n].tag);
    }
  }

  lemma {:induction false} RenamedFirst(archives: seq<ImageArchive>, j: nat)
    requires j < |archives|
    requires forall i :: 0 <= i < j ==> archives[i].source != archives[j].source
    ensures Renamed(archives[j].source, archives) == archives[j].tag
    decreases j
  {
    if j > 0 {
      RenamedFirst(archives[1..], j - 1);
    }
  }

  lemma OccursInItself(s: string)
    ensures Occurs(s, s)
  {
    assert OccursAt(s, s, 0);
  }

  /** When no source occurs in a later source or in a tag, rewriting is one
      simultaneous substitution. */
  lemma UntangledIsSimultaneous(archives: seq<ImageArchive>)
    requires NonEmptySources(archives) && Untangled(archives)
    ensures RewritesSimultaneously(archives)
  {
    forall j | 0 <= j < |archives|
      ensures Rewritten(archives[j].source, archives) == Renamed(archives[j].source, archives)
    {
      SourceBecomesTag(archives, j);
      forall i | 0 <= i < j ensures archives[i].source != archives[j].source {
        OccursInItself(archives[j].source);
      }
      RenamedFirst(archives, j);
    }
    SimultaneousExactly(archives);
  }

  lemma {:induction false} RenamedByMember(f: string, archives: seq<ImageArchive>)
    ensures IsSource(f, archives) ==>
      exists i :: 0 <= i < |archives| && archives[i].source == f && Renamed(f, archives) == archives[i].tag
    ensures !IsSource(f, archives) ==> Renamed(f, archives) == f
    decreases |archives|
  {
    if archives != [] {
      RenamedByMember(f, archives[1..]);
      if archives[0].source == f {
        assert Renamed(f, archives) == archives[0].tag;
      } else if IsSource(f, archives) {
        var k :| 0 <= k < |archives| && archives[k].source == f;
        assert archives[1..][k - 1].source == f;
        var i :| 0 <= i < |archives[1..]| && archives[1..][i].source == f && Renamed(f, archives[1..]) == archives[1..][i].tag;
        assert archives[i + 1].source == f;
      }
    }
  }

  /** The archive order does not matter as long as both orders are untangled. */
  lemma OrderDoesNotMatter(a: seq<ImageArchive>, b: seq<ImageArchive>, fields: seq<string>, seps: seq<char>)
    requires NonEmptySources(a) && Untangled(a) && Untangled(b)
    requires multiset(a) == multiset(b)
    requires WellDelimited(fields, seps, a)
    ensures Rewritten(Render(fields, seps), a) == Rewritten(Render(fields, seps), b)
  {
    forall i | 0 <= i < |b| ensures b[i] in a {
      assert b[i] in multiset(b);
    }
    forall i | 0 <= i < |a| ensures a[i] in b {
      assert a[i] in multiset(a);
    }
    WellDelimitedUnderOrder(a, b, fields, seps);
    UntangledIsSimultaneous(a);
    UntangledIsSimultaneous(b);
    forall k | 0 <= k < |fields| ensures Renamed(fields[k], a) == Renamed(fields[k], b) {
      SameRenaming(a, b, fields[k]);
    }
    assert RenamedAll(fields, a) == RenamedAll(fields, b);
  }

  lemma WellDelimitedUnderOrder(a: seq<ImageArchive>, b: seq<ImageArchive>, fields: seq<string>, seps: seq<char>)
    requires forall i :: 0 <= i < |b| ==> b[i] in a
    requires forall i :: 0 <= i < |a| ==> a[i] in b
    requires NonEmptySources(a) && WellDelimited(fields, seps, a)
    ensures NonEmptySources(b) && WellDelimited(fields, seps, b)
  {
    forall i | 0 <= i < |fields| ensures IsSource(fields[i], b) || Inert(fields[i], b) {
      if IsSource(fields[i], a) {
        var k :| 0 <= k < |a| && a[k].source == fields[i];
        assert a[k] in b;
      }
    }
  }

  lemma SameRenaming(a: seq<ImageArchive>, b: seq<ImageArchive>, f: string)
    requires Untangled(a)
    requires forall i :: 0 <= i < |b| ==> b[i] in a
    requires forall i :: 0 <= i < |a| ==> a[i] in b
    ensures Renamed(f, a) == Renamed(f, b)
  {
    RenamedByMember(f, a);
    RenamedByMember(f, b);
    if IsSource(f, a) {
      var i :| 0 <= i < |a| && a[i].source == f && Renamed(f, a) == a[i].tag;
      assert a[i] in b;
      var m :| 0 <= m < |b| && b[m] == a[i];
      var j :| 0 <= j < |b| && b[j].source == f && Renamed(f, b) == b[j].tag;
      assert b[j] in a;
      var k :| 0 <= k < |a| && a[k] == b[j];
      OccursInItself(f);
    }
  }

  function Swapped(archives: seq<ImageArchive>): (r: seq<ImageArchive>)
    ensures |r| == |archives|
  {
    seq(|archives|, i requires 0 <= i < |archives| => ImageArchive(archives[i].tag, archives[i].source, archives[i].imageID))
  }

  /** Rewriting tags back to sources restores the text, when tags stand just as
      clear of everything else as sources do. */
  lemma Reversible(archives: seq<ImageArchive>, fields: seq<string>, seps: seq<char>)
    requires NonEmptySources(archives) && Untangled(archives) && WellDelimited(fields, seps, archives)
    requires NonEmptySources(Swapped(archives)) && Untangled(Swapped(archives))
    requires forall i, j :: 0 <= i < |seps| && 0 <= j < |archives| ==> seps[i] !in archives[j].tag
    requires forall k :: 0 <= k < |fields| && !IsSource(fields[k], archives) ==> Inert(fields[k], Swapped(archives))
    ensures Rewritten(Rewritten(Render(fields, seps), archives), Swapped(archives)) == Render(fields, seps)
  {
    var back := Swapped(archives);
    var mid := RenamedAll(fields, archives);
    UntangledIsSimultaneous(archives);
    UntangledIsSimultaneous(back);
    forall k | 0 <= k < |fields|
      ensures IsSource(mid[k], back) || Inert(mid[k], back)
      ensures Renamed(mid[k], back) == fields[k]
    {
      BackAndForth(archives, fields[k]);
    }
    assert WellDelimited(mid, seps, back);
    assert RenamedAll(mid, back) == fields;
  }

  lemma BackAndForth(archives: seq<ImageArchive>, f: string)
    requires Untangled(archives) && Untangled(Swapped(archives))
    requires IsSource(f, archives) || Inert(f, Swapped(archives))
    ensures var g := Renamed(f, archives); IsSource(g, Swapped(archives)) || Inert(g, Swapped(archives))
    ensures Renamed(Renamed(f, archives), Swapped(archives)) == f
  {
    var back := Swapped(archives);
    RenamedByMember(f, archives);
    if IsSource(f, archives) {
      var i :| 0 <= i < |archives| && archives[i].source == f && Renamed(f, archives) == archives[i].tag;
      assert back[i].source == archives[i].tag;
      forall j | 0 <= j < i ensures back[j].source != back[i].source {
        OccursInItself(back[i].source);
      }
      RenamedFirst(back, i);
    } else {
      InertKeepsName(f, back);
    }
  }

  /** It does go wrong: images are listed in sorted order, so a reference that is
      a prefix of another one is replaced inside it first. */
  lemma PrefixIsMisread()
    ensures var archives := [ImageArchive("r:7", "t/1", "a"), ImageArchive("r:72", "t/2", "b")];
      Less(archives[0].source, archives[1].source) && Rewritten("r:72", archives) != Renamed("r:72", archives)
  {
    var archives := [ImageArchive("r:7", "t/1", "a"), ImageArchive("r:72", "t/2", "b")];
    var s := "r:72";
    assert s[3..] == "2" && "r:7" <= s;
    assert ReplaceAll("2", "r:7", "t/1") == "2" by {
      assert !("r:7" <= "2");
      assert "2"[1..] == "";
    }
    assert ReplaceAll(s, "r:7", "t/1") == "t/1" + "2";
    assert archives[..1] == [archives[0]];
    assert Rewritten(s, archives[..1]) == "t/12" by {
      assert archives[..1][..0] == [];
    }
    assert Rewritten(s, archives) == ReplaceAll("t/12", "r:72", "t/2");
    forall i | 0 <= i <= 4 ensures !OccursAt("r:72", "t/12", i) {
      assert "t/12"[i..] != [] ==> "t/12"[i..][0] == "t/12"[i];
    }
    ReplaceNothing("t/12", "r:72", "t/2");
    assert archives[1..][0] == archives[1];
    assert Renamed(s, archives) == "t/2";
  }
}
