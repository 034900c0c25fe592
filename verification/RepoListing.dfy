/** Printing the repository map, and what can be read back from the printed lines. */
module RepoListing {
  import opened Text
  import opened Order
  import opened RepoTree
  import opened Repr

  /* ---------- The lines of an entry ---------- */

  const BAR := "\U{2502}   "
  const GAP := "    "
  const TEE := "\U{251c}\U{2500}\U{2500} "
  const ELBOW := "\U{2514}\U{2500}\U{2500} "

  function Pad(last: bool): string { if last then GAP else BAR }

  function Connector(last: bool): string { if last then ELBOW else TEE }

  /** The test by which a dictionary passes for the symbols of a file. */
  predicate TakenForFile(dict: map<string, Entry>) { "classes" in dict || "functions" in dict }

  function Each(before: string, xs: seq<string>, after: string): (r: seq<string>)
    ensures |r| == |xs| && forall i :: 0 <= i < |r| ==> r[i] == before + (xs[i] + after)
  {
    seq(|xs|, i requires 0 <= i < |xs| => before + (xs[i] + after))
  }

  function SymbolLines(lead: string, s: Symbols): seq<string> {
    Each(lead + "    class ", s.classes, "") + Each(lead + "    def ", s.functions, "()") +
    (if s.error.Some? && s.error.value != "" then [lead + ("    # Error: " + s.error.value)] else [])
  }

  /** The lines for the symbols of an entry. */
  method FormatSymbols(lead: string, s: Symbols) returns (lines: seq<string>)
    ensures lines == SymbolLines(lead, s)
  {
    lines := [];
    for i := 0 to |s.classes|
      invariant lines == Each(lead + "    class ", s.classes, "")[..i]
    {
      lines := lines + [lead + "    class " + (s.classes[i] + "")];
    }
    for i := 0 to |s.functions|
      invariant lines == Each(lead + "    class ", s.classes, "") + Each(lead + "    def ", s.functions, "()")[..i]
    {
      lines := lines + [lead + "    def " + (s.functions[i] + "()")];
    }
    if s.error.Some? && s.error.value != "" {
      lines := lines + [lead + ("    # Error: " + s.error.value)];
    }
  }

  /* ---------- A directory taken for a file ---------- */

  /** What a loop over the value of an entry goes through: the keys of a dictionary. */
  function KeysOf(h: Heap, o: Orders, e: Entry): seq<string>
    requires |o| == |h| && (e.Dir? ==> e.id < |h|)
  {
    match e
    case File(s) => ["classes", "functions"] + (if s.error.Some? then ["error"] else [])
    case Dir(id) => o[id]
  }

  function SymbolsText(s: Symbols): string {
    "{'classes': " + QuotedList(s.classes) + ", 'functions': " + QuotedList(s.functions) +
    (if s.error.Some? then ", 'error': " + Quoted(s.error.value) else "") + "}"
  }

  /** `str` of the dictionary of a directory. */
  function DictText(h: Heap, o: Orders, d: nat): string
    requires Valid(h) && Ordered(h, o) && d < |h|
    decreases |h| - d, 2, 0
  {
    "{" + (ItemsText(h, o, d, o[d]) + "}")
  }

  function ItemsText(h: Heap, o: Orders, d: nat, names: seq<string>): string
    requires Valid(h) && Ordered(h, o) && d < |h| && forall n :: n in names ==> n in h[d]
    decreases |h| - d, 1, |names|, 0
  {
    if names == [] then ""
    else
      Quoted(names[0]) + (": " + (EntryText(h, o, d, names[0]) + MoreText(h, o, d, names[1..])))
  }

  function MoreText(h: Heap, o: Orders, d: nat, names: seq<string>): string
    requires Valid(h) && Ordered(h, o) && d < |h| && forall n :: n in names ==> n in h[d]
    decreases |h| - d, 1, |names|, 1
  {
    if names == [] then "" else ", " + ItemsText(h, o, d, names)
  }

  function EntryText(h: Heap, o: Orders, d: nat, name: string): string
    requires Valid(h) && Ordered(h, o) && d < |h| && name in h[d]
    decreases |h| - d, 0, 0
  {
    match h[d][name]
    case File(s) => SymbolsText(s)
    case Dir(id) =>
      assert Refers(h, d, name, id);
      DictText(h, o, id)
  }

  /** The keys under `name`, if there is such an entry. */
  function KeysUnder(h: Heap, o: Orders, d: nat, name: string): seq<string>
    requires Valid(h) && Ordered(h, o) && d < |h|
  {
    if name !in h[d] then []
    else
      assert h[d][name].Dir? ==> Refers(h, d, name, h[d][name].id);
      KeysOf(h, o, h[d][name])
  }

  /** The symbols that a directory taken for a file is printed with. */
  function Posing(h: Heap, o: Orders, d: nat): Symbols
    requires Valid(h) && Ordered(h, o) && d < |h|
  {
    Symbols(
      KeysUnder(h, o, d, "classes"), KeysUnder(h, o, d, "functions"),
      if KeysUnder(h, o, d, "error") == [] then None else Some(EntryText(h, o, d, "error")))
  }

  /* ---------- format_tree ---------- */

  /** The lines for a directory. An empty one leaves an empty line. */
  ghost function Lines(h: Heap, o: Orders, d: nat, prefix: string): seq<string>
    requires Valid(h) && Ordered(h, o) && d < |h|
    decreases |h| - d, 2, 0
  {
    ItemLines(h, o, d, SortedOf(h[d].Keys), prefix)
  }

  ghost function ItemLines(h: Heap, o: Orders, d: nat, names: seq<string>, prefix: string): seq<string>
    requires Valid(h) && Ordered(h, o) && d < |h| && forall n :: n in names ==> n in h[d]
    decreases |h| - d, 1, |names|
  {
    if names == [] then []
    else EntryLines(h, o, d, names[0], |names| == 1, prefix) + ItemLines(h, o, d, names[1..], prefix)
  }

  ghost function EntryLines(h: Heap, o: Orders, d: nat, name: string, last: bool, prefix: string): seq<string>
    requires Valid(h) && Ordered(h, o) && d < |h| && name in h[d]
    decreases |h| - d, 0, 0
  {
    match h[d][name]
    case File(s) => FileLines(name, s, last, prefix)
    case Dir(id) =>
      assert Refers(h, d, name, id);
      if TakenForFile(h[id]) then FileLines(name, Posing(h, o, id), last, prefix)
      else [prefix + (Connector(last) + (name + "/"))] + InnerLines(h, o, id, prefix + Pad(last))
  }

  function FileLines(name: string, s: Symbols, last: bool, prefix: string): seq<string> {
    [prefix + (Connector(last) + name)] + SymbolLines(prefix + Pad(last), s)
  }

  ghost function InnerLines(h: Heap, o: Orders, d: nat, prefix: string): seq<string>
    requires Valid(h) && Ordered(h, o) && d < |h|
    decreases |h| - d, 3, 0
  {
    if h[d] == map[] then [""] else Lines(h, o, d, prefix)
  }

  /** `format_tree`, line by line. */
  method FormatTree(h: Heap, o: Orders, d: nat, prefix: string) returns (lines: seq<string>)
    requires Valid(h) && Ordered(h, o) && d < |h|
    ensures lines == Lines(h, o, d, prefix)
    decreases |h| - d, 1
  {
    lines := [];
    var names := Sorted(h[d].Keys);
    SortedUnique(names, SortedOf(h[d].Keys), h[d].Keys);
    assert names[0..] == names;
    for i := 0 to |names|
      invariant lines + ItemLines(h, o, d, names[i..], prefix) == Lines(h, o, d, prefix)
    {
      assert names[i] in names && names[i..][1..] == names[i + 1..];
      var entry := FormatEntry(h, o, d, names[i], i == |names| - 1, prefix);
      assert ItemLines(h, o, d, names[i..], prefix) == entry + ItemLines(h, o, d, names[i + 1..], prefix);
      Regrouped(lines, entry, ItemLines(h, o, d, names[i + 1..], prefix));
      lines := lines + entry;
    }
  }

  lemma Regrouped(a: seq<string>, b: seq<string>, c: seq<string>)
    ensures a + (b + c) == a + b + c
  {}

  /** The body of its loop. */
  method FormatEntry(h: Heap, o: Orders, d: nat, name: string, last: bool, prefix: string)
    returns (lines: seq<string>)
    requires Valid(h) && Ordered(h, o) && d < |h| && name in h[d]
    ensures lines == EntryLines(h, o, d, name, last, prefix)
    decreases |h| - d, 0
  {
    match h[d][name]
    case File(s) =>
      lines := [prefix + (Connector(last) + name)];
      var symbols := FormatSymbols(prefix + Pad(last), s);
      lines := lines + symbols;
    case Dir(id) =>
      assert Refers(h, d, name, id);
      if TakenForFile(h[id]) {
        lines := [prefix + (Connector(last) + name)];
        var symbols := FormatSymbols(prefix + Pad(last), Posing(h, o, id));
        lines := lines + symbols;
      } else {
        lines := [prefix + (Connector(last) + (name + "/"))];
        var inner := FormatTree(h, o, id, prefix + Pad(last));
        lines := lines + (if h[id] == map[] then [""] else inner);
      }
  }

  /* ---------- Reading the lines ---------- */

  datatype Listed = Listed(depth: nat, name: string, dir: bool)

  /** An entry with its depth, or None for any other line. */
  function Parse(t: string, depth: nat): Option<Listed> {
    if BAR <= t || GAP <= t then Parse(t[4..], depth + 1)
    else if !(TEE <= t || ELBOW <= t) then None
    else if |t| > 4 && t[|t| - 1] == '/' then Some(Listed(depth, t[4..|t| - 1], true))
    else Some(Listed(depth, t[4..], false))
  }

  /** The paths of the lines that look like files, read top to bottom; `dir` is where reading has got to. */
  function ReadFiles(lines: seq<string>, dir: Path): seq<Path> {
    if lines == [] then []
    else
      match Parse(lines[0], 0)
      case None => ReadFiles(lines[1..], dir)
      case Some(l) =>
        if l.depth > |dir| then ReadFiles(lines[1..], dir)
        else if l.dir then ReadFiles(lines[1..], dir[..l.depth] + [l.name])
        else [dir[..l.depth] + [l.name]] + ReadFiles(lines[1..], dir)
  }

  function DirAfter(lines: seq<string>, dir: Path): Path {
    if lines == [] then dir
    else
      match Parse(lines[0], 0)
      case None => DirAfter(lines[1..], dir)
      case Some(l) =>
        if l.depth <= |dir| && l.dir then DirAfter(lines[1..], dir[..l.depth] + [l.name])
        else DirAfter(lines[1..], dir)
  }

  lemma {:induction false} ReadConcat(a: seq<string>, b: seq<string>, dir: Path)
    ensures ReadFiles(a + b, dir) == ReadFiles(a, dir) + ReadFiles(b, DirAfter(a, dir))
    ensures DirAfter(a + b, dir) == DirAfter(b, DirAfter(a, dir))
    decreases |a|
  {
    if a == [] {
      assert a + b == b;
    } else {
      assert (a + b)[0] == a[0] && (a + b)[1..] == a[1..] + b;
      match Parse(a[0], 0)
      case None => ReadConcat(a[1..], b, dir);
      case Some(l) =>
        if l.depth <= |dir| && l.dir {
          ReadConcat(a[1..], b, dir[..l.depth] + [l.name]);
        } else {
          ReadConcat(a[1..], b, dir);
        }
    }
  }

  lemma {:induction false} ReadNothing(lines: seq<string>, dir: Path)
    requires forall t :: t in lines ==> Parse(t, 0).None?
    ensures ReadFiles(lines, dir) == [] && DirAfter(lines, dir) == dir
  {
    if lines != [] {
      assert lines[0] in lines && forall t :: t in lines[1..] ==> t in lines;
      ReadNothing(lines[1..], dir);
    }
  }

  /* ---------- Indentation ---------- */

  /** `k` pads. */
  predicate Indents(prefix: string, k: nat) {
    if k == 0 then prefix == "" else (BAR <= prefix || GAP <= prefix) && Indents(prefix[4..], k - 1)
  }

  lemma {:induction false} ParseIndented(prefix: string, k: nat, x: string, depth: nat)
    requires Indents(prefix, k)
    ensures Parse(prefix + x, depth) == Parse(x, depth + k)
    decreases k
  {
    if k == 0 {
      assert prefix + x == x;
    } else {
      assert (prefix + x)[..4] == prefix[..4];
      assert (prefix + x)[4..] == prefix[4..] + x;
      ParseIndented(prefix[4..], k - 1, x, depth + 1);
    }
  }

  lemma {:induction false} IndentMore(prefix: string, k: nat, last: bool)
    requires Indents(prefix, k)
    ensures Indents(prefix + Pad(last), k + 1)
    decreases k
  {
    if k == 0 {
      assert prefix + Pad(last) == Pad(last);
      assert Pad(last)[4..] == "";
    } else {
      assert (prefix + Pad(last))[..4] == prefix[..4];
      assert (prefix + Pad(last))[4..] == prefix[4..] + Pad(last);
      IndentMore(prefix[4..], k - 1, last);
    }
  }

  lemma ParseEntry(prefix: string, k: nat, last: bool, name: string)
    requires Indents(prefix, k) && GoodName(name)
    ensures Parse(prefix + (Connector(last) + name), 0) == Some(Listed(k, name, false))
    ensures Parse(prefix + (Connector(last) + (name + "/")), 0) == Some(Listed(k, name, true))
  {
    ParseLine(prefix, k, last, name);
    ParseLine(prefix, k, last, name + "/");
    assert name[|name| - 1] in name;
    assert (name + "/")[..|name|] == name;
  }

  lemma ParseLine(prefix: string, k: nat, last: bool, x: string)
    requires Indents(prefix, k) && x != ""
    ensures Parse(prefix + (Connector(last) + x), 0) ==
            Some(if x[|x| - 1] == '/' then Listed(k, x[..|x| - 1], true) else Listed(k, x, false))
  {
    ParseIndented(prefix, k, Connector(last) + x, 0);
    ParseConnected(last, x, k);
  }

  lemma ParseConnected(last: bool, x: string, k: nat)
    requires x != ""
    ensures Parse(Connector(last) + x, k) ==
            Some(if x[|x| - 1] == '/' then Listed(k, x[..|x| - 1], true) else Listed(k, x, false))
  {
    var t := Connector(last) + x;
    assert t[0] == Connector(last)[0] && t[..4] == Connector(last) && t[4..] == x;
    assert t[|t| - 1] == x[|x| - 1] && t[4..|t| - 1] == x[..|x| - 1];
  }

  /** A line of text behind an indentation is no entry. */
  lemma ParseText(lead: string, k: nat, x: string)
    requires Indents(lead, k) && |x| > 4 && x[..4] == GAP && x[4] in "cd#"
    ensures Parse(lead + x, 0).None?
  {
    ParseIndented(lead, k, x, 0);
    assert x[4..][0] == x[4];
  }

  lemma SymbolsAreText(lead: string, k: nat, s: Symbols)
    requires Indents(lead, k)
    ensures forall t :: t in SymbolLines(lead, s) ==> Parse(t, 0).None?
  {
    forall t | t in Each(lead + "    class ", s.classes, "") ensures Parse(t, 0).None? {
      EachIsText(lead, k, "    class ", s.classes, "", t);
    }
    forall t | t in Each(lead + "    def ", s.functions, "()") ensures Parse(t, 0).None? {
      EachIsText(lead, k, "    def ", s.functions, "()", t);
    }
    if s.error.Some? {
      ParseText(lead, k, "    # Error: " + s.error.value);
    }
  }

  lemma ReadSymbols(lead: string, k: nat, s: Symbols, dir: Path)
    requires Indents(lead, k)
    ensures ReadFiles(SymbolLines(lead, s), dir) == [] && DirAfter(SymbolLines(lead, s), dir) == dir
  {
    SymbolsAreText(lead, k, s);
    ReadNothing(SymbolLines(lead, s), dir);
  }

  lemma EachIsText(lead: string, k: nat, before: string, xs: seq<string>, after: string, t: string)
    requires Indents(lead, k) && |before| > 4 && before[..4] == GAP && before[4] in "cd#"
    requires t in Each(lead + before, xs, after)
    ensures Parse(t, 0).None?
  {
    var i :| 0 <= i < |xs| && t == lead + before + (xs[i] + after);
    var x := before + (xs[i] + after);
    assert t == lead + x;
    assert x[..4] == before[..4] && x[4] == before[4];
    ParseText(lead, k, x);
  }

  /* ---------- What is listed ---------- */

  lemma NameOf(h: Heap, d: nat, name: string)
    requires Named(h) && d < |h| && name in h[d]
    ensures GoodName(name)
  {}

  /** The paths listed below the directory `d`, which is at `p`. */
  ghost function Paths(h: Heap, d: nat, p: Path): seq<Path>
    requires Valid(h) && d < |h|
    decreases |h| - d, 2, 0
  {
    ItemPaths(h, d, SortedOf(h[d].Keys), p)
  }

  ghost function ItemPaths(h: Heap, d: nat, names: seq<string>, p: Path): seq<Path>
    requires Valid(h) && d < |h| && forall n :: n in names ==> n in h[d]
    decreases |h| - d, 1, |names|
  {
    if names == [] then [] else EntryPaths(h, d, names[0], p) + ItemPaths(h, d, names[1..], p)
  }

  ghost function EntryPaths(h: Heap, d: nat, name: string, p: Path): seq<Path>
    requires Valid(h) && d < |h| && name in h[d]
    decreases |h| - d, 0, 0
  {
    match h[d][name]
    case File(_) => [p + [name]]
    case Dir(id) =>
      assert Refers(h, d, name, id);
      if TakenForFile(h[id]) then [p + [name]] else Paths(h, id, p + [name])
  }

  /** Reading has got somewhere below `p`. */
  predicate Below(p: Path, dir: Path) { p <= dir }

  /** The printed lines are read back as the listed paths. */
  lemma {:induction false} ReadLines(h: Heap, o: Orders, d: nat, prefix: string, p: Path, dir: Path)
    requires Valid(h) && Named(h) && Ordered(h, o) && d < |h| && Indents(prefix, |p|) && Below(p, dir)
    ensures ReadFiles(Lines(h, o, d, prefix), dir) == Paths(h, d, p) && Below(p, DirAfter(Lines(h, o, d, prefix), dir))
    decreases |h| - d, 2, 0
  {
    ReadItems(h, o, d, SortedOf(h[d].Keys), prefix, p, dir);
  }

  lemma {:induction false} ReadItems(h: Heap, o: Orders, d: nat, names: seq<string>, prefix: string, p: Path, dir: Path)
    requires Valid(h) && Named(h) && Ordered(h, o) && d < |h| && (forall n :: n in names ==> n in h[d])
    requires Indents(prefix, |p|) && Below(p, dir)
    ensures ReadFiles(ItemLines(h, o, d, names, prefix), dir) == ItemPaths(h, d, names, p)
    ensures Below(p, DirAfter(ItemLines(h, o, d, names, prefix), dir))
    decreases |h| - d, 1, |names|
  {
    if names != [] {
      assert names[0] in names;
      var first := EntryLines(h, o, d, names[0], |names| == 1, prefix);
      ReadEntry(h, o, d, names[0], |names| == 1, prefix, p, dir);
      ReadItems(h, o, d, names[1..], prefix, p, DirAfter(first, dir));
      ReadConcat(first, ItemLines(h, o, d, names[1..], prefix), dir);
    }
  }

  /** The lines of a file, or of a directory taken for one, are read as one path, whatever the symbols. */
  lemma ReadFile(name: string, s: Symbols, last: bool, prefix: string, p: Path, dir: Path)
    requires GoodName(name) && Indents(prefix, |p|) && Below(p, dir)
    ensures ReadFiles(FileLines(name, s, last, prefix), dir) == [p + [name]]
    ensures DirAfter(FileLines(name, s, last, prefix), dir) == dir
  {
    ParseEntry(prefix, |p|, last, name);
    IndentMore(prefix, |p|, last);
    assert dir[..|p|] == p;
    ReadSymbols(prefix + Pad(last), |p| + 1, s, dir);
    ReadOne(prefix + (Connector(last) + name), SymbolLines(prefix + Pad(last), s), dir);
  }

  lemma {:induction false} ReadEntry(h: Heap, o: Orders, d: nat, name: string, last: bool, prefix: string, p: Path,
                                     dir: Path)
    requires Valid(h) && Named(h) && Ordered(h, o) && d < |h| && name in h[d]
    requires Indents(prefix, |p|) && Below(p, dir)
    ensures ReadFiles(EntryLines(h, o, d, name, last, prefix), dir) == EntryPaths(h, d, name, p)
    ensures Below(p, DirAfter(EntryLines(h, o, d, name, last, prefix), dir))
    decreases |h| - d, 0, 0
  {
    NameOf(h, d, name);
    match h[d][name]
    case File(s) => ReadFile(name, s, last, prefix, p, dir);
    case Dir(id) =>
      assert Refers(h, d, name, id);
      if TakenForFile(h[id]) {
        ReadFile(name, Posing(h, o, id), last, prefix, p, dir);
      } else {
        ReadDir(h, o, id, name, last, prefix, p, dir);
      }
  }

  lemma {:induction false} ReadDir(h: Heap, o: Orders, id: nat, name: string, last: bool, prefix: string, p: Path,
                                   dir: Path)
    requires Valid(h) && Named(h) && Ordered(h, o) && id < |h| && GoodName(name)
    requires Indents(prefix, |p|) && Below(p, dir)
    ensures var lines := [prefix + (Connector(last) + (name + "/"))] + InnerLines(h, o, id, prefix + Pad(last));
            ReadFiles(lines, dir) == Paths(h, id, p + [name]) && Below(p, DirAfter(lines, dir))
    decreases |h| - id, 3, 0
  {
    ParseEntry(prefix, |p|, last, name);
    IndentMore(prefix, |p|, last);
    assert dir[..|p|] == p;
    ReadOne(prefix + (Connector(last) + (name + "/")), InnerLines(h, o, id, prefix + Pad(last)), dir);
    if h[id] == map[] {
      ReadNothing([""], p + [name]);
      EmptyPaths(h, id, p + [name]);
    } else {
      ReadLines(h, o, id, prefix + Pad(last), p + [name], p + [name]);
    }
  }

  lemma EmptyPaths(h: Heap, d: nat, p: Path)
    requires Valid(h) && d < |h| && h[d] == map[]
    ensures Paths(h, d, p) == []
  {
    SortedLength(SortedOf(h[d].Keys), {});
  }

  lemma {:induction false} ReadOne(line: string, rest: seq<string>, dir: Path)
    requires Parse(line, 0).Some? && Parse(line, 0).value.depth <= |dir|
    ensures var l := Parse(line, 0).value;
            var p := dir[..l.depth] + [l.name];
            ReadFiles([line] + rest, dir) == (if l.dir then ReadFiles(rest, p) else [p] + ReadFiles(rest, dir)) &&
            DirAfter([line] + rest, dir) == DirAfter(rest, if l.dir then p else dir)
  {
    assert ([line] + rest)[1..] == rest;
  }
}
