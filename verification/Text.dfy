/** Strings as the Go code uses them: a string is a sequence of bytes, ordered
    byte by byte, split and joined at a separator byte. */
module Text {

  datatype Option<+T> = None | Some(value: T)

  // ---------------------------------------------------------------- order

  /** Go's `<` on strings. */
  predicate Less(a: string, b: string)
  {
    b != [] && (a == [] || a[0] < b[0] || (a[0] == b[0] && Less(a[1..], b[1..])))
  }

  lemma {:induction false} LessTransitive(a: string, b: string, c: string)
    requires Less(a, b) && Less(b, c)
    ensures Less(a, c)
  {
    if a != [] && a[0] == b[0] && b[0] == c[0] {
      LessTransitive(a[1..], b[1..], c[1..]);
    }
  }

  lemma {:induction false} LessIrreflexive(a: string)
    ensures !Less(a, a)
  {
    if a != [] {
      LessIrreflexive(a[1..]);
    }
  }

  lemma {:induction false} LessTotal(a: string, b: string)
    ensures a == b || Less(a, b) || Less(b, a)
  {
    if a != [] && b != [] && a[0] == b[0] {
      LessTotal(a[1..], b[1..]);
      assert a == [a[0]] + a[1..] && b == [b[0]] + b[1..];
    }
  }

  predicate StrictlySorted(names: seq<string>)
  {
    forall i, j :: 0 <= i < j < |names| ==> Less(names[i], names[j])
  }

  /** Adjacent comparisons, as a loop over neighbours makes them, are enough. */
  lemma {:induction false} AdjacentSorted(names: seq<string>)
    requires forall i :: 0 < i < |names| ==> Less(names[i - 1], names[i])
    ensures StrictlySorted(names)
  {
    forall i, j | 0 <= i < j < |names| ensures Less(names[i], names[j]) {
      AdjacentChain(names, i, j);
    }
  }

  lemma {:induction false} AdjacentChain(names: seq<string>, i: nat, j: nat)
    requires i < j < |names|
    requires forall k :: 0 < k < |names| ==> Less(names[k - 1], names[k])
    ensures Less(names[i], names[j])
    decreases j - i
  {
    assert Less(names[j - 1], names[j]);
    if i < j - 1 {
      AdjacentChain(names, i, j - 1);
      LessTransitive(names[i], names[j - 1], names[j]);
    }
  }

  lemma SortedIsDistinct(names: seq<string>)
    requires StrictlySorted(names)
    ensures forall i, j :: 0 <= i < j < |names| ==> names[i] != names[j]
  {
    forall i, j | 0 <= i < j < |names| ensures names[i] != names[j] {
      LessIrreflexive(names[i]);
    }
  }

  /** The position at which `name` keeps a sorted list sorted. */
  method InsertName(names: seq<string>, name: string) returns (out: seq<string>)
    requires StrictlySorted(names) && name !in names
    ensures StrictlySorted(out)
    ensures forall n :: n in out <==> n in names || n == name
    ensures |out| == |names| + 1
  {
    var i := 0;
    while i < |names| && Less(names[i], name)
      invariant 0 <= i <= |names|
      invariant forall k :: 0 <= k < i ==> Less(names[k], name)
    {
      i := i + 1;
    }
    forall k | i <= k < |names| ensures Less(name, names[k]) {
      LessTotal(name, names[i]);
      if i < k {
        LessTransitive(name, names[i], names[k]);
      }
    }
    out := names[..i] + [name] + names[i..];
    assert names == names[..i] + names[i..];
  }

  /** Entries of a directory in the order `os.ReadDir` lists them. */
  method SortedNames(names: set<string>) returns (out: seq<string>)
    ensures StrictlySorted(out)
    ensures forall n :: n in out <==> n in names
    ensures |out| == |names|
  {
    out := [];
    var rest := names;
    while rest != {}
      invariant rest <= names
      invariant StrictlySorted(out)
      invariant forall n :: n in out <==> n in names - rest
      invariant |out| + |rest| == |names|
      decreases rest
    {
      var n :| n in rest;
      out := InsertName(out, n);
      rest := rest - {n};
    }
  }

  // ------------------------------------------------------- split and join

  /** `strings.Split(s, string(sep))`. */
  function Split(s: string, sep: char): (parts: seq<string>)
    ensures |parts| >= 1
    ensures forall p :: p in parts ==> sep !in p
  {
    if s == [] then [""]
    else
      var rest := Split(s[1..], sep);
      if s[0] == sep then [""] + rest
      else [[s[0]] + rest[0]] + rest[1..]
  }

  /** `strings.Join(parts, string(sep))`. */
  function Join(parts: seq<string>, sep: char): string
  {
    if parts == [] then ""
    else if |parts| == 1 then parts[0]
    else parts[0] + [sep] + Join(parts[1..], sep)
  }

  lemma {:induction false} SplitPiece(p: string, s: string, sep: char)
    requires sep !in p
    ensures Split(p, sep) == [p]
    ensures Split(p + [sep] + s, sep) == [p] + Split(s, sep)
  {
    if p == [] {
      assert p + [sep] + s == [sep] + s;
      assert ([sep] + s)[1..] == s;
    } else {
      SplitPiece(p[1..], s, sep);
      var whole := p + [sep] + s;
      assert whole[1..] == p[1..] + [sep] + s;
      assert p == [p[0]] + p[1..];
    }
  }

  lemma {:induction false} SplitJoin(parts: seq<string>, sep: char)
    requires parts != []
    requires forall p :: p in parts ==> sep !in p
    ensures Split(Join(parts, sep), sep) == parts
  {
    assert parts[0] in parts;
    SplitPiece(parts[0], "", sep);
    if |parts| > 1 {
      forall p | p in parts[1..] ensures sep !in p { assert p in parts; }
      SplitJoin(parts[1..], sep);
      SplitPiece(parts[0], Join(parts[1..], sep), sep);
      assert parts == [parts[0]] + parts[1..];
    }
  }

  // ------------------------------------------------------- small predicates

  predicate IsSpace(c: char)
  {
    c == ' ' || c == '\n' || c == '\t' || c == '\r' || c == '\U{000B}' || c == '\U{000C}'
  }

  /** `strings.TrimSpace(s) == ""`. */
  predicate Blank(s: string)
  {
    forall i :: 0 <= i < |s| ==> IsSpace(s[i])
  }
}
