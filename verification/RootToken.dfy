/** `upsertRootToken`: setting one value in one section of a configuration text. */
module RootToken {
  import opened Text
  import opened Paths

  /** Go's `%q` and its inverse, of which only this is used: no line break in a
      quoted value, a quotation mark at its end, and reading undoes quoting. */
  datatype Quoting = Quoting(quote: string -> string, unquote: string -> Option<string>)

  ghost predicate Faithful(q: Quoting)
  {
    forall t :: '\n' !in q.quote(t) && |q.quote(t)| > 0 && q.quote(t)[|q.quote(t)| - 1] == '"' && q.unquote(q.quote(t)) == Some(t)
  }

  const KEY := "  root_token:"

  function EntryFor(q: Quoting, token: string): string { KEY + " " + q.quote(token) }

  // --------------------------------------------------------- lines of a section

  predicate StartsWith(line: string, prefix: string) { prefix <= line }

  /** A line that still belongs to the section above it: empty, or indented. */
  predicate Indented(line: string) { line == "" || line[0] == ' ' }

  /** The first line from `k` on that is the header, or the number of lines. */
  function HeaderAt(lines: seq<string>, header: string, k: nat): (i: nat)
    requires k <= |lines|
    ensures k <= i <= |lines| && (i < |lines| ==> lines[i] == header)
    decreases |lines| - k
  {
    if k == |lines| || lines[k] == header then k else HeaderAt(lines, header, k + 1)
  }

  /** Where the section that starts before `k` ends. */
  function BlockEnd(lines: seq<string>, k: nat): (i: nat)
    requires k <= |lines|
    ensures k <= i <= |lines| && (i < |lines| ==> !Indented(lines[i]))
    decreases |lines| - k
  {
    if k == |lines| || !Indented(lines[k]) then k else BlockEnd(lines, k + 1)
  }

  /** The first token line in `lines[k..end]`, or `end`. */
  function ChildAt(lines: seq<string>, k: nat, end: nat): (i: nat)
    requires k <= end <= |lines|
    ensures k <= i <= end && (i < end ==> StartsWith(lines[i], KEY))
    decreases end - k
  {
    if k == end || StartsWith(lines[k], KEY) then k else ChildAt(lines, k + 1, end)
  }

  /** The token line of a section, if it has one. */
  function TokenLine(lines: seq<string>, header: string): Option<string>
  {
    var h := HeaderAt(lines, header, 0);
    if h == |lines| then None
    else
      var end := BlockEnd(lines, h + 1);
      var c := ChildAt(lines, h + 1, end);
      if c < end then Some(lines[c]) else None
  }

  /** The lines after the value was set. */
  function Upserted(lines: seq<string>, header: string, entry: string): seq<string>
  {
    var h := HeaderAt(lines, header, 0);
    if h == |lines| then Padded(lines) + [header, entry]
    else
      var end := BlockEnd(lines, h + 1);
      var c := ChildAt(lines, h + 1, end);
      if c < end then lines[c := entry] else lines[..end] + [entry] + lines[end..]
  }

  /** A blank line separates a new section from what stands before it. */
  function Padded(lines: seq<string>): seq<string>
  {
    if lines != [] && lines[|lines| - 1] != "" then lines + [""] else lines
  }

  // ------------------------------------------------------------------ the loops

  /** The scan as it is run, over the lines of the text. */
  method UpsertLines(text: seq<string>, header: string, entry: string) returns (lines: seq<string>)
    ensures lines == Upserted(text, header, entry)
  {
    lines := text;
    var idx := 0;
    while idx < |lines|
      invariant 0 <= idx <= |lines| && lines == text
      invariant HeaderAt(text, header, 0) == HeaderAt(text, header, idx)
    {
      if lines[idx] == header {
        lines := UpsertChild(lines, idx, entry);
        return;
      }
      idx := idx + 1;
    }
    if |lines| > 0 && lines[|lines| - 1] != "" {
      lines := lines + [""];
    }
    lines := lines + [header, entry];
  }

  /** Below a header: overwrite the token line, or insert one where the section ends. */
  method UpsertChild(text: seq<string>, idx: nat, entry: string) returns (lines: seq<string>)
    requires idx < |text|
    ensures var end := BlockEnd(text, idx + 1);
      var c := ChildAt(text, idx + 1, end);
      lines == if c < end then text[c := entry] else text[..end] + [entry] + text[end..]
  {
    lines := text;
    var insertAt := idx + 1;
    var childIdx := idx + 1;
    while childIdx < |lines|
      invariant idx + 1 <= childIdx == insertAt <= |lines| && lines == text
      invariant BlockEnd(text, idx + 1) == BlockEnd(text, childIdx)
      invariant ChildAt(text, idx + 1, BlockEnd(text, idx + 1)) == ChildAt(text, childIdx, BlockEnd(text, idx + 1))
    {
      var childLine := lines[childIdx];
      if childLine != "" && childLine[0] != ' ' {
        break;
      }
      insertAt := childIdx + 1;
      if StartsWith(childLine, KEY) {
        lines := lines[childIdx := entry];
        return;
      }
      childIdx := childIdx + 1;
    }
    lines := lines[..insertAt] + [entry] + lines[insertAt..];
  }

  // ----------------------------------------------------------- laws on the lines

  /** What a token line and a header look like. */
  predicate IsEntry(entry: string) { StartsWith(entry, KEY) && entry[|entry| - 1] != ':' }
  predicate IsHeader(header: string) { header != "" && header[|header| - 1] == ':' }

  lemma {:induction false} HeaderIs(lines: seq<string>, header: string, k: nat, i: nat)
    requires k <= i <= |lines| && (i < |lines| ==> lines[i] == header)
    requires forall j :: k <= j < i ==> lines[j] != header
    ensures HeaderAt(lines, header, k) == i
    decreases i - k
  {
    if k < i {
      HeaderIs(lines, header, k + 1, i);
    }
  }

  lemma {:induction false} BlockEndIs(lines: seq<string>, k: nat, i: nat)
    requires k <= i <= |lines| && (i < |lines| ==> !Indented(lines[i]))
    requires forall j :: k <= j < i ==> Indented(lines[j])
    ensures BlockEnd(lines, k) == i
    decreases i - k
  {
    if k < i {
      BlockEndIs(lines, k + 1, i);
    }
  }

  lemma {:induction false} ChildIs(lines: seq<string>, k: nat, end: nat, i: nat)
    requires k <= i <= end <= |lines| && (i < end ==> StartsWith(lines[i], KEY))
    requires forall j :: k <= j < i ==> !StartsWith(lines[j], KEY)
    ensures ChildAt(lines, k, end) == i
    decreases i - k
  {
    hide StartsWith;
    if k < i {
      ChildIs(lines, k + 1, end, i);
    }
  }

  /** The three searches stop at the first place there is. */
  lemma {:induction false} HeaderFirst(lines: seq<string>, header: string, k: nat)
    requires k <= |lines|
    ensures forall j :: k <= j < HeaderAt(lines, header, k) ==> lines[j] != header
    decreases |lines| - k
  {
    if k < |lines| && lines[k] != header {
      HeaderFirst(lines, header, k + 1);
    }
  }

  lemma {:induction false} BlockFirst(lines: seq<string>, k: nat)
    requires k <= |lines|
    ensures forall j :: k <= j < BlockEnd(lines, k) ==> Indented(lines[j])
    decreases |lines| - k
  {
    hide Indented;
    if k < |lines| && Indented(lines[k]) {
      BlockFirst(lines, k + 1);
    }
  }

  lemma {:induction false} ChildFirst(lines: seq<string>, k: nat, end: nat)
    requires k <= end <= |lines|
    ensures forall j :: k <= j < ChildAt(lines, k, end) ==> !StartsWith(lines[j], KEY)
    decreases end - k
  {
    hide StartsWith;
    if k < end && !StartsWith(lines[k], KEY) {
      ChildFirst(lines, k + 1, end);
    }
  }

  lemma EntryFacts(header: string, entry: string)
    requires IsHeader(header) && IsEntry(entry)
    ensures Indented(entry) && StartsWith(entry, KEY) && entry != header && header != ""
  {
    assert KEY[0] == ' ' && entry[0] == KEY[0];
  }

  /** Where things stand in a text: the first header, the end of its section, and
      the first token line in it. */
  ghost predicate Stands(lines: seq<string>, header: string, h: nat, end: nat, c: nat)
  {
    h < |lines| && HeaderAt(lines, header, 0) == h && BlockEnd(lines, h + 1) == end && ChildAt(lines, h + 1, end) == c
  }

  lemma AfterAppend(lines: seq<string>, header: string, entry: string)
    requires IsHeader(header) && IsEntry(entry) && HeaderAt(lines, header, 0) == |lines|
    ensures var p := Padded(lines); Stands(p + [header, entry], header, |p|, |p| + 2, |p| + 1)
  {
    hide StartsWith, Indented, IsHeader, IsEntry;
    EntryFacts(header, entry);
    HeaderFirst(lines, header, 0);
    var p := Padded(lines);
    var u := p + [header, entry];
    HeaderIs(u, header, 0, |p|);
    BlockEndIs(u, |p| + 1, |u|);
    ChildIs(u, |p| + 1, |u|, |p| + 1);
  }

  lemma AfterReplace(lines: seq<string>, header: string, entry: string, h: nat, end: nat, c: nat)
    requires IsHeader(header) && IsEntry(entry) && Stands(lines, header, h, end, c) && c < end
    ensures Stands(lines[c := entry], header, h, end, c)
  {
    hide StartsWith, Indented, IsHeader, IsEntry;
    EntryFacts(header, entry);
    HeaderFirst(lines, header, 0);
    BlockFirst(lines, h + 1);
    ChildFirst(lines, h + 1, end);
    var u := lines[c := entry];
    HeaderIs(u, header, 0, h);
    BlockEndIs(u, h + 1, end);
    ChildIs(u, h + 1, end, c);
  }

  lemma AfterInsert(lines: seq<string>, header: string, entry: string, h: nat, end: nat)
    requires IsHeader(header) && IsEntry(entry) && Stands(lines, header, h, end, end)
    ensures Stands(lines[..end] + [entry] + lines[end..], header, h, end + 1, end)
  {
    hide StartsWith, Indented, IsHeader, IsEntry;
    EntryFacts(header, entry);
    HeaderFirst(lines, header, 0);
    BlockFirst(lines, h + 1);
    ChildFirst(lines, h + 1, end);
    var u := lines[..end] + [entry] + lines[end..];
    assert forall j :: 0 <= j < end ==> u[j] == lines[j];
    assert u[end] == entry && (end < |lines| ==> u[end + 1] == lines[end]);
    HeaderIs(u, header, 0, h);
    BlockEndIs(u, h + 1, end + 1);
    ChildIs(u, h + 1, end + 1, end);
  }

  /** Reading back gives what was written, and a second write wins over the first,
      leaving no trace of it. */
  lemma WriteThenWrite(lines: seq<string>, header: string, first: string, second: string)
    requires IsHeader(header) && IsEntry(first) && IsEntry(second)
    ensures TokenLine(Upserted(lines, header, first), header) == Some(first)
    ensures Upserted(Upserted(lines, header, first), header, second) == Upserted(lines, header, second)
  {
    hide StartsWith, Indented, IsHeader, IsEntry, HeaderAt, BlockEnd, ChildAt;
    var u := Upserted(lines, header, first);
    var h := HeaderAt(lines, header, 0);
    if h == |lines| {
      AfterAppend(lines, header, first);
      var p := Padded(lines);
      assert u[|p| + 1 := second] == p + [header, second];
    } else {
      var end := BlockEnd(lines, h + 1);
      var c := ChildAt(lines, h + 1, end);
      if c < end {
        AfterReplace(lines, header, first, h, end, c);
        assert u[c := second] == lines[c := second];
      } else {
        AfterInsert(lines, header, first, h, end);
        assert u[end := second] == lines[..end] + [second] + lines[end..];
      }
    }
  }

  /** Without the line at `c`. */
  function Without(lines: seq<string>, c: nat): seq<string>
    requires c < |lines|
  {
    lines[..c] + lines[c + 1..]
  }

  lemma WithoutTheLine(lines: seq<string>, c: nat, entry: string)
    requires c <= |lines|
    ensures Without(lines[..c] + [entry] + lines[c..], c) == lines
    ensures c < |lines| ==> Without(lines[c := entry], c) == Without(lines, c)
  {
    var u := lines[..c] + [entry] + lines[c..];
    assert u[..c] == lines[..c] && u[c + 1..] == lines[c..];
    if c < |lines| {
      var w := lines[c := entry];
      assert w[..c] == lines[..c] && w[c + 1..] == lines[c + 1..];
    }
  }

  /** Every other line keeps its content and its order: the result is the old text
      with one line overwritten or inserted, or with a new section at its end. */
  lemma OtherLinesKept(lines: seq<string>, header: string, entry: string) returns (c: nat)
    ensures var u := Upserted(lines, header, entry);
      && c < |u| && u[c] == entry
      && (TokenLine(lines, header).Some? ==> c < |lines| && StartsWith(lines[c], KEY) && Without(u, c) == Without(lines, c))
      && (TokenLine(lines, header).None? ==> Without(u, c) == if header in lines then lines else Padded(lines) + [header])
  {
    hide StartsWith, Indented, HeaderAt, BlockEnd, ChildAt, Without;
    HeaderFirst(lines, header, 0);
    var h := HeaderAt(lines, header, 0);
    if h == |lines| {
      var p := Padded(lines) + [header];
      c := |p|;
      WithoutTheLine(p, c, entry);
      assert p[..c] + [entry] + p[c..] == Upserted(lines, header, entry);
    } else {
      assert lines[h] in lines;
      c := ChildAt(lines, h + 1, BlockEnd(lines, h + 1));
      WithoutTheLine(lines, c, entry);
    }
  }

  // ------------------------------------------------------------ other sections

  /** A section whose header is no line of another section. */
  predicate TopLevel(header: string) { IsHeader(header) && header[0] != ' ' }

  lemma TopLevelFacts(header: string)
    requires TopLevel(header)
    ensures IsHeader(header) && !Indented(header)
  {
  }

  /** `u` is `lines` with `entry` inserted at `end`. */
  ghost predicate Inserted(lines: seq<string>, u: seq<string>, end: nat, entry: string)
  {
    && end <= |lines| && |u| == |lines| + 1 && u[end] == entry
    && (forall j :: 0 <= j < end ==> u[j] == lines[j])
    && (forall j :: end <= j < |lines| ==> u[j + 1] == lines[j])
  }

  /** A section that ends before the inserted line. */
  lemma SectionAbove(lines: seq<string>, u: seq<string>, end: nat, entry: string, other: string, h: nat)
    requires Inserted(lines, u, end, entry) && h < end && !Indented(lines[h]) && HeaderAt(lines, other, 0) < h
    ensures TokenLine(u, other) == TokenLine(lines, other)
  {
    hide StartsWith, Indented, HeaderAt, BlockEnd, ChildAt;
    HeaderFirst(lines, other, 0);
    var k := HeaderAt(lines, other, 0);
    var e := BlockEnd(lines, k + 1);
    BlockFirst(lines, k + 1);
    assert e <= h;
    ChildFirst(lines, k + 1, e);
    HeaderIs(u, other, 0, k);
    BlockEndIs(u, k + 1, e);
    ChildIs(u, k + 1, e, ChildAt(lines, k + 1, e));
  }

  /** A section that starts after the inserted line, or none at all. */
  lemma SectionBelow(lines: seq<string>, u: seq<string>, end: nat, entry: string, other: string)
    requires Inserted(lines, u, end, entry) && entry != other && end <= HeaderAt(lines, other, 0)
    ensures TokenLine(u, other) == TokenLine(lines, other)
  {
    hide StartsWith, Indented, HeaderAt, BlockEnd, ChildAt;
    HeaderFirst(lines, other, 0);
    var k := HeaderAt(lines, other, 0);
    Shifted(lines, u, end, k + 1, other);
    HeaderIs(u, other, 0, k + 1);
    if k < |lines| {
      var e := BlockEnd(lines, k + 1);
      ShiftedBlock(lines, u, end, k, e, ChildAt(lines, k + 1, e));
    }
  }

  /** Any other section, whose place may be pushed down by a line. */
  lemma OtherAfterInsert(lines: seq<string>, entry: string, other: string, h: nat, end: nat)
    requires TopLevel(other) && Indented(entry)
    requires h < end <= |lines| && !Indented(lines[h]) && lines[h] != other
    requires forall j :: h < j < end ==> Indented(lines[j])
    ensures TokenLine(lines[..end] + [entry] + lines[end..], other) == TokenLine(lines, other)
  {
    hide StartsWith, Indented, HeaderAt, BlockEnd, ChildAt, TokenLine;
    TopLevelFacts(other);
    var u := lines[..end] + [entry] + lines[end..];
    assert Inserted(lines, u, end, entry);
    if HeaderAt(lines, other, 0) < h {
      SectionAbove(lines, u, end, entry, other, h);
    } else {
      SectionBelow(lines, u, end, entry, other);
    }
  }

  /** No line of `u` before `k` is the header, if none of `lines` is that stands there. */
  lemma Shifted(lines: seq<string>, u: seq<string>, end: nat, k: nat, other: string)
    requires end < k <= |u| == |lines| + 1
    requires forall j :: 0 <= j < end ==> u[j] == lines[j]
    requires u[end] != other && forall j :: end <= j < |lines| ==> u[j + 1] == lines[j]
    requires forall j :: 0 <= j < k - 1 ==> lines[j] != other
    ensures forall j :: 0 <= j < k ==> u[j] != other
  {
    forall j | 0 <= j < k ensures u[j] != other {
      if j > end {
        assert u[(j - 1) + 1] == lines[j - 1];
      }
    }
  }

  lemma ShiftedBlock(lines: seq<string>, u: seq<string>, end: nat, k: nat, e: nat, c: nat)
    requires end <= k < |lines| && |u| == |lines| + 1
    requires forall j :: end <= j < |lines| ==> u[j + 1] == lines[j]
    requires e == BlockEnd(lines, k + 1) && c == ChildAt(lines, k + 1, e)
    ensures BlockEnd(u, k + 2) == e + 1 && ChildAt(u, k + 2, e + 1) == c + 1
    ensures c < e ==> u[c + 1] == lines[c]
  {
    hide StartsWith, Indented;
    BlockFirst(lines, k + 1);
    ChildFirst(lines, k + 1, e);
    forall j | k + 2 <= j < e + 1 ensures Indented(u[j]) {
      assert u[(j - 1) + 1] == lines[j - 1];
    }
    BlockEndIs(u, k + 2, e + 1);
    forall j | k + 2 <= j < c + 1 ensures !StartsWith(u[j], KEY) {
      assert u[(j - 1) + 1] == lines[j - 1];
    }
    ChildIs(u, k + 2, e + 1, c + 1);
  }

  lemma OtherAfterReplace(lines: seq<string>, entry: string, other: string, h: nat, end: nat, c: nat)
    requires TopLevel(other) && Indented(entry) && h < c < end <= |lines| && !Indented(lines[h]) && lines[h] != other
    requires forall j :: h < j < end ==> Indented(lines[j])
    ensures TokenLine(lines[c := entry], other) == TokenLine(lines, other)
  {
    hide StartsWith, Indented;
    TopLevelFacts(other);
    hide IsHeader, TopLevel;
    var u := lines[c := entry];
    var k := HeaderAt(lines, other, 0);
    HeaderFirst(lines, other, 0);
    HeaderIs(u, other, 0, k);
    if k < |lines| {
      var e := BlockEnd(lines, k + 1);
      BlockFirst(lines, k + 1);
      ChildFirst(lines, k + 1, e);
      BlockEndIs(u, k + 1, e);
      ChildIs(u, k + 1, e, ChildAt(lines, k + 1, e));
    }
  }

  lemma OtherAfterAppend(lines: seq<string>, header: string, entry: string, other: string)
    requires TopLevel(header) && TopLevel(other) && header != other && Indented(entry)
    ensures TokenLine(Padded(lines) + [header, entry], other) == TokenLine(lines, other)
  {
    hide StartsWith, Indented;
    TopLevelFacts(header);
    TopLevelFacts(other);
    hide IsHeader, TopLevel;
    var p := Padded(lines);
    var u := p + [header, entry];
    BlankIsIndented();
    var k := HeaderAt(lines, other, 0);
    HeaderFirst(lines, other, 0);
    if k == |lines| {
      HeaderIs(u, other, 0, |u|);
    } else {
      HeaderIs(u, other, 0, k);
      var e := BlockEnd(lines, k + 1);
      var c := ChildAt(lines, k + 1, e);
      BlockFirst(lines, k + 1);
      ChildFirst(lines, k + 1, e);
      var e2 := if e == |lines| then |p| else e;
      BlockEndIs(u, k + 1, e2);
      ChildIs(u, k + 1, e2, if c == e then e2 else c);
    }
  }

  lemma BlankIsIndented()
    ensures Indented("") && !StartsWith("", KEY)
  {
  }

  /** Setting one section never changes what another one reads. */
  lemma OtherSectionKept(lines: seq<string>, header: string, entry: string, other: string)
    requires TopLevel(header) && TopLevel(other) && header != other && IsEntry(entry)
    ensures TokenLine(Upserted(lines, header, entry), other) == TokenLine(lines, other)
  {
    hide StartsWith, Indented;
    TopLevelFacts(header);
    EntryFacts(header, entry);
    hide IsHeader, TopLevel, IsEntry;
    var h := HeaderAt(lines, header, 0);
    if h == |lines| {
      OtherAfterAppend(lines, header, entry, other);
    } else {
      var end := BlockEnd(lines, h + 1);
      var c := ChildAt(lines, h + 1, end);
      BlockFirst(lines, h + 1);
      if c < end {
        OtherAfterReplace(lines, entry, other, h, end, c);
      } else {
        OtherAfterInsert(lines, entry, other, h, end);
      }
    }
  }

  /** An indented header stands inside the section before it, so setting it can show
      through there: other sections are safe exactly from top-level ones. */
  ghost predicate KeepsOthers(header: string)
  {
    forall lines, entry, other :: IsEntry(entry) && TopLevel(other) && other != header ==>
      TokenLine(Upserted(lines, header, entry), other) == TokenLine(lines, other)
  }

  lemma KeepsOthersExactly(header: string)
    requires IsHeader(header)
    ensures KeepsOthers(header) <==> header[0] != ' '
  {
    if header[0] != ' ' {
      forall lines, entry, other | IsEntry(entry) && TopLevel(other) && other != header
        ensures TokenLine(Upserted(lines, header, entry), other) == TokenLine(lines, other)
      {
        OtherSectionKept(lines, header, entry, other);
      }
    } else {
      var entry := KEY + " ";
      assert IsEntry(entry) by { assert entry[|entry| - 1] == ' '; }
      ShowsThrough(header, entry);
      assert TopLevel("a:") && "a:" != header;
    }
  }

  lemma ShowsThrough(header: string, entry: string)
    requires IsHeader(header) && header[0] == ' ' && IsEntry(entry)
    ensures TokenLine(Upserted(["a:"], header, entry), "a:") != TokenLine(["a:"], "a:")
  {
    hide StartsWith, IsHeader;
    EntryFacts(header, entry);
    var lines := ["a:"];
    HeaderIs(lines, header, 0, 1);
    assert Padded(lines) == ["a:", ""];
    var u := Upserted(lines, header, entry);
    assert u == ["a:", "", header, entry];
    HeaderIs(u, "a:", 0, 0);
    HeaderIs(lines, "a:", 0, 0);
    BlockEndIs(u, 1, 4);
    BlockEndIs(lines, 1, 1);
    ChildFirst(u, 1, 4);
    ChildIs(lines, 1, 1, 1);
  }

  // ------------------------------------------------------------------ the texts

  function LinesOf(text: string): seq<string> { Split(TrimRight(text, '\n'), '\n') }

  function TextOf(lines: seq<string>): string { Join(lines, '\n') + "\n" }

  function Header(section: string): string { section + ":" }

  function Upsert(q: Quoting, text: string, section: string, token: string): string
  {
    TextOf(Upserted(LinesOf(text), Header(section), EntryFor(q, token)))
  }

  /** `upsertRootToken` */
  method UpsertRootToken(q: Quoting, text: string, section: string, token: string) returns (out: string)
    ensures out == Upsert(q, text, section, token)
  {
    var lines := UpsertLines(LinesOf(text), Header(section), EntryFor(q, token));
    out := Join(lines, '\n') + "\n";
  }

  /** The value a section holds. */
  function ReadToken(q: Quoting, text: string, section: string): Option<string>
  {
    var line := TokenLine(LinesOf(text), Header(section));
    if line.Some? && KEY + " " <= line.value then q.unquote(line.value[|KEY| + 1..]) else None
  }

  /** Lines a text can be made of, and be split into again. */
  predicate Proper(lines: seq<string>)
  {
    lines != [] && lines[|lines| - 1] != "" && forall i :: 0 <= i < |lines| ==> '\n' !in lines[i]
  }

  lemma TrimKeeps(s: string, c: char)
    requires s != "" && s[|s| - 1] != c
    ensures TrimRight(s + [c], c) == s
  {
    assert (s + [c])[..|s|] == s;
  }

  lemma {:induction false} JoinEnds(lines: seq<string>, sep: char)
    requires lines != [] && lines[|lines| - 1] != ""
    ensures Join(lines, sep) != ""
    ensures Join(lines, sep)[|Join(lines, sep)| - 1] == lines[|lines| - 1][|lines[|lines| - 1]| - 1]
  {
    if |lines| > 1 {
      JoinEnds(lines[1..], sep);
    }
  }

  /** Writing proper lines as a text and splitting it gives them back. */
  lemma Reread(lines: seq<string>)
    requires Proper(lines)
    ensures LinesOf(TextOf(lines)) == lines
  {
    JoinEnds(lines, '\n');
    TrimKeeps(Join(lines, '\n'), '\n');
    forall p | p in lines ensures '\n' !in p { }
    SplitJoin(lines, '\n');
  }

  lemma {:induction false} SplitEnds(s: string, c: char)
    requires s != "" && s[|s| - 1] != c
    ensures Split(s, c)[|Split(s, c)| - 1] != ""
  {
    if |s| > 1 {
      SplitEnds(s[1..], c);
    }
  }

  /** The lines of any text: proper, or the one empty line. */
  lemma LinesOfText(text: string)
    ensures Proper(LinesOf(text)) || LinesOf(text) == [""]
    ensures forall i :: 0 <= i < |LinesOf(text)| ==> '\n' !in LinesOf(text)[i]
  {
    var s := TrimRight(text, '\n');
    if s != "" {
      SplitEnds(s, '\n');
    }
    forall i | 0 <= i < |LinesOf(text)| ensures '\n' !in LinesOf(text)[i] {
      assert LinesOf(text)[i] in LinesOf(text);
    }
  }

  lemma UpsertedProper(lines: seq<string>, header: string, entry: string)
    requires (Proper(lines) || lines == [""]) && '\n' !in header && '\n' !in entry && header != "" && entry != ""
    ensures Proper(Upserted(lines, header, entry))
  {
    hide HeaderAt, BlockEnd, ChildAt, StartsWith, Indented;
    var h := HeaderAt(lines, header, 0);
    if h < |lines| {
      assert lines != [""];
    }
  }

  lemma EntryIsEntry(q: Quoting, section: string, token: string)
    requires Faithful(q)
    ensures IsEntry(EntryFor(q, token)) && IsHeader(Header(section)) && EntryFor(q, token) != ""
    ensures '\n' !in EntryFor(q, token)
    ensures EntryFor(q, token)[|KEY| + 1..] == q.quote(token) && KEY + " " <= EntryFor(q, token)
  {
    var e := EntryFor(q, token);
    assert e[|e| - 1] == q.quote(token)[|q.quote(token)| - 1];
    assert KEY <= e;
    assert '\n' !in KEY;
  }

  lemma UpsertRereads(q: Quoting, text: string, section: string, token: string)
    requires Faithful(q) && '\n' !in section
    ensures LinesOf(Upsert(q, text, section, token)) == Upserted(LinesOf(text), Header(section), EntryFor(q, token))
  {
    hide HeaderAt, BlockEnd, ChildAt, StartsWith, Indented, LinesOf, TextOf, EntryFor, Upserted, Proper;
    LinesOfText(text);
    EntryIsEntry(q, section, token);
    UpsertedProper(LinesOf(text), Header(section), EntryFor(q, token));
    Reread(Upserted(LinesOf(text), Header(section), EntryFor(q, token)));
  }

  /** Lens laws, for every text, section and token: reading back gives the token, and
      a second write wins over the first; writing the same twice is writing it once. */
  lemma LensLaws(q: Quoting, text: string, section: string, first: string, second: string)
    requires Faithful(q) && '\n' !in section
    ensures ReadToken(q, Upsert(q, text, section, first), section) == Some(first)
    ensures Upsert(q, Upsert(q, text, section, first), section, second) == Upsert(q, text, section, second)
  {
    hide LinesOf, TextOf, EntryFor, Upserted, TokenLine, IsEntry, IsHeader;
    EntryIsEntry(q, section, first);
    EntryIsEntry(q, section, second);
    UpsertRereads(q, text, section, first);
    WriteThenWrite(LinesOf(text), Header(section), EntryFor(q, first), EntryFor(q, second));
  }

  /** A section name with a line break can never be read back: its header is no line. */
  lemma ReadBackExactly(q: Quoting, text: string, section: string, token: string)
    requires Faithful(q)
    ensures ReadToken(q, Upsert(q, text, section, token), section) == Some(token) <==> '\n' !in section
  {
    hide TextOf, EntryFor, Upserted, Upsert, BlockEnd, ChildAt, HeaderAt;
    if '\n' !in section {
      LensLaws(q, text, section, token, token);
    } else {
      var lines := LinesOf(Upsert(q, text, section, token));
      LinesOfText(Upsert(q, text, section, token));
      assert '\n' in Header(section);
      HeaderIs(lines, Header(section), 0, |lines|);
    }
  }

  /** Setting one top-level section leaves what every other one reads. */
  lemma OtherSectionReads(q: Quoting, text: string, section: string, token: string, other: string)
    requires Faithful(q) && '\n' !in section && section != other
    requires TopLevel(Header(section)) && TopLevel(Header(other))
    ensures ReadToken(q, Upsert(q, text, section, token), other) == ReadToken(q, text, other)
  {
    hide LinesOf, TextOf, EntryFor, Upserted, TokenLine, IsEntry, IsHeader, TopLevel;
    EntryIsEntry(q, section, token);
    UpsertRereads(q, text, section, token);
    assert Header(section)[..|section|] == section && Header(other)[..|other|] == other;
    OtherSectionKept(LinesOf(text), Header(section), EntryFor(q, token), Header(other));
  }

  /** `updatePlainConfig`: both sections, one after the other. */
  method UpdatePlainConfig(q: Quoting, text: string, token: string) returns (out: string)
    requires Faithful(q)
    ensures ReadToken(q, out, "openbao") == Some(token) && ReadToken(q, out, "openbao_config") == Some(token)
    ensures forall other :: TopLevel(Header(other)) && other != "openbao" && other != "openbao_config" ==>
      ReadToken(q, out, other) == ReadToken(q, text, other)
  {
    hide ReadToken, Upsert;
    var once := UpsertRootToken(q, text, "openbao", token);
    LensLaws(q, text, "openbao", token, token);
    out := UpsertRootToken(q, once, "openbao_config", token);
    LensLaws(q, once, "openbao_config", token, token);
    SectionsTopLevel();
    OtherSectionReads(q, once, "openbao_config", token, "openbao");
    forall other | TopLevel(Header(other)) && other != "openbao" && other != "openbao_config"
      ensures ReadToken(q, out, other) == ReadToken(q, text, other)
    {
      OtherSectionReads(q, text, "openbao", token, other);
      OtherSectionReads(q, once, "openbao_config", token, other);
    }
  }

  lemma SectionsTopLevel()
    ensures TopLevel(Header("openbao")) && TopLevel(Header("openbao_config"))
    ensures '\n' !in "openbao" && '\n' !in "openbao_config"
  {
    assert Header("openbao")[7] == ':' && Header("openbao_config")[14] == ':';
  }
}
