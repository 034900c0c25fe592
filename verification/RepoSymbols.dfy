/** Reading the printed map back with its symbols and its geometry: what is printed for every file, in
    which order, and where the branches end. */
module RepoSymbols {
  import opened Text
  import opened Order
  import opened RepoTree
  import opened RepoListing
  import opened RepoMap

  /* ---------- A reader of whole maps ---------- */

  /** The line of an entry: for every level whether it is the last of its directory. */
  datatype Head = Head(lasts: seq<bool>, name: string, dir: bool)

  function HeadOf(t: string): Option<Head> {
    if BAR <= t then Deeper(false, HeadOf(t[4..]))
    else if GAP <= t then Deeper(true, HeadOf(t[4..]))
    else if TEE <= t then Named([false], t[4..])
    else if ELBOW <= t then Named([true], t[4..])
    else None
  }

  function Deeper(last: bool, h: Option<Head>): Option<Head> {
    match h
    case None => None
    case Some(Head(lasts, name, dir)) => Some(Head([last] + lasts, name, dir))
  }

  function Named(lasts: seq<bool>, x: string): Option<Head> {
    if x != "" && x[|x| - 1] == '/' then Some(Head(lasts, x[..|x| - 1], true)) else Some(Head(lasts, x, false))
  }

  /** The indentation below an entry. */
  function Lead(lasts: seq<bool>): string {
    if lasts == [] then "" else (if lasts[0] then "    " else "\U{2502}   ") + Lead(lasts[1..])
  }

  /** A line of symbols below an entry. */
  datatype Note = OfClass(text: string) | OfFunction(text: string) | OfError(text: string)

  function NoteOf(t: string, lasts: seq<bool>): Option<Note> {
    var lead := Lead(lasts) + "    ";
    if lead <= t then TextOf(t[|lead|..]) else None
  }

  function TextOf(x: string): Option<Note> {
    if "class " <= x then Some(OfClass(x[6..]))
    else if "def " <= x && |x| >= 6 && x[|x| - 2..] == "()" then Some(OfFunction(x[4..|x| - 2]))
    else if "# Error: " <= x then Some(OfError(x[9..]))
    else None
  }

  /** The lines of symbols at the head of a listing, below an entry. */
  function Notes(lines: seq<string>, lasts: seq<bool>): seq<Note> {
    if lines == [] || NoteOf(lines[0], lasts).None? then []
    else [NoteOf(lines[0], lasts).value] + Notes(lines[1..], lasts)
  }

  datatype Row = Row(path: Path, lasts: seq<bool>, notes: seq<Note>)

  /** The files of a listing, with what stands below each; `dir` is where reading has got to. */
  function ReadRows(lines: seq<string>, dir: Path): seq<Row> {
    if lines == [] then []
    else
      match HeadOf(lines[0])
      case None => ReadRows(lines[1..], dir)
      case Some(h) =>
        if h.lasts == [] || |h.lasts| - 1 > |dir| then ReadRows(lines[1..], dir)
        else if h.dir then ReadRows(lines[1..], dir[..|h.lasts| - 1] + [h.name])
        else
          [Row(dir[..|h.lasts| - 1] + [h.name], h.lasts, Notes(lines[1..], h.lasts))] + ReadRows(lines[1..], dir)
  }

  function RowDir(lines: seq<string>, dir: Path): Path {
    if lines == [] then dir
    else
      match HeadOf(lines[0])
      case None => RowDir(lines[1..], dir)
      case Some(h) =>
        if h.lasts != [] && |h.lasts| - 1 <= |dir| && h.dir then RowDir(lines[1..], dir[..|h.lasts| - 1] + [h.name])
        else RowDir(lines[1..], dir)
  }

  /** The notes that symbols should leave: classes, functions, and an error that is not empty. */
  function NotesFor(s: Symbols): seq<Note> {
    seq(|s.classes|, i requires 0 <= i < |s.classes| => OfClass(s.classes[i])) +
    seq(|s.functions|, i requires 0 <= i < |s.functions| => OfFunction(s.functions[i])) +
    (if s.error.Some? && s.error.value != "" then [OfError(s.error.value)] else [])
  }

  /* ---------- Lines and their places ---------- */

  /** The listing does not begin with a line of symbols. */
  ghost predicate Quiet(lines: seq<string>) {
    lines != [] ==> forall lasts :: NoteOf(lines[0], lasts).None?
  }

  /** A line of symbols is no entry. */
  lemma {:induction false} NoteNoHead(t: string, lasts: seq<bool>)
    requires NoteOf(t, lasts).Some?
    ensures HeadOf(t).None?
    decreases |lasts|
  {
    var x := t[|Lead(lasts)| + 4..];
    assert t == Lead(lasts) + (GAP + x) by {
      assert t[..|Lead(lasts)| + 4] == Lead(lasts) + "    ";
    }
    NoteText(x);
    PaddedHead(true, x);
    LedHead(lasts, GAP + x);
    DeeperNone(lasts);
  }

  function AllDeeper(lasts: seq<bool>, h: Option<Head>): Option<Head> {
    if lasts == [] then h else Deeper(lasts[0], AllDeeper(lasts[1..], h))
  }

  lemma LeadJoin(lasts: seq<bool>, t: string)
    ensures lasts == [] ==> Lead(lasts) + t == t
    ensures lasts != [] ==> Lead(lasts) + t == Pad(lasts[0]) + (Lead(lasts[1..]) + t)
  {
    if lasts != [] {
      LeadFirst(lasts);
      Regroup3(Pad(lasts[0]), Lead(lasts[1..]), t);
    } else {
      assert "" + t == t;
    }
  }

  /** An indentation adds its levels to an entry, and makes none where there is none. */
  lemma {:induction false} LedHead(lasts: seq<bool>, t: string)
    ensures HeadOf(Lead(lasts) + t) == AllDeeper(lasts, HeadOf(t))
  {
    LeadJoin(lasts, t);
    if lasts != [] {
      LedHead(lasts[1..], t);
      PaddedHead(lasts[0], Lead(lasts[1..]) + t);
    }
  }

  lemma {:induction false} DeeperNone(lasts: seq<bool>)
    ensures AllDeeper(lasts, None) == None
  {
    if lasts != [] {
      DeeperNone(lasts[1..]);
    }
  }

  lemma {:induction false} DeeperNamed(lasts: seq<bool>, last: bool, x: string)
    ensures AllDeeper(lasts, Named([last], x)) == Named(lasts + [last], x)
  {
    if lasts == [] {
      assert [] + [last] == [last];
    } else {
      DeeperNamed(lasts[1..], last, x);
      assert [lasts[0]] + (lasts[1..] + [last]) == lasts + [last];
    }
  }

  lemma NoteText(x: string)
    requires "class " <= x || "def " <= x || "# Error: " <= x
    ensures HeadOf(x).None?
  {
    assert x[0] == 'c' || x[0] == 'd' || x[0] == '#';
  }

  lemma LeadFirst(lasts: seq<bool>)
    requires lasts != []
    ensures Lead(lasts) == Pad(lasts[0]) + Lead(lasts[1..]) && |Pad(lasts[0])| == 4
    ensures if lasts[0] then GAP <= Lead(lasts) && !(BAR <= Lead(lasts)) else BAR <= Lead(lasts)
  {
    assert Lead(lasts)[0] == if lasts[0] then ' ' else '\U{2502}';
  }

  lemma HeadIsQuiet(line: string, rest: seq<string>)
    requires HeadOf(line).Some?
    ensures Quiet([line] + rest)
  {
    forall lasts ensures NoteOf(line, lasts).None? {
      if NoteOf(line, lasts).Some? {
        NoteNoHead(line, lasts);
      }
    }
  }

  lemma {:induction false} LeadMore(lasts: seq<bool>, last: bool)
    ensures Lead(lasts + [last]) == Lead(lasts) + Pad(last)
  {
    if lasts == [] {
      assert [] + [last] == [last] && [last][1..] == [];
      assert Lead([last]) == Pad(last) + "";
    } else {
      assert (lasts + [last])[0] == lasts[0] && (lasts + [last])[1..] == lasts[1..] + [last];
      LeadMore(lasts[1..], last);
      LeadFirst(lasts);
      LeadFirst(lasts + [last]);
    }
  }

  /** The line of an entry is read with its place and its name. */
  lemma {:induction false} HeadHere(lasts: seq<bool>, last: bool, x: string)
    ensures HeadOf(Lead(lasts) + (Connector(last) + x)) == Named(lasts + [last], x)
  {
    ConnectedHead(last, x);
    LedHead(lasts, Connector(last) + x);
    DeeperNamed(lasts, last, x);
  }

  lemma ConnectedHead(last: bool, x: string)
    ensures HeadOf(Connector(last) + x) == Named([last], x)
  {
    var t := Connector(last) + x;
    assert t[0] == Connector(last)[0] && t[..4] == Connector(last) && t[4..] == x;
  }

  lemma PaddedHead(last: bool, t: string)
    ensures HeadOf(Pad(last) + t) == Deeper(last, HeadOf(t))
  {
    var s := Pad(last) + t;
    assert s[..4] == Pad(last) && s[4..] == t && s[0] == Pad(last)[0];
  }

  lemma {:induction false} NamedHere(lasts: seq<bool>, last: bool, name: string)
    requires GoodName(name)
    ensures HeadOf(Lead(lasts) + (Connector(last) + name)) == Some(Head(lasts + [last], name, false))
    ensures HeadOf(Lead(lasts) + (Connector(last) + (name + "/"))) == Some(Head(lasts + [last], name, true))
  {
    HeadHere(lasts, last, name);
    HeadHere(lasts, last, name + "/");
    assert name[|name| - 1] in name;
    assert (name + "/")[..|name|] == name;
  }

  /* ---------- Lines of symbols ---------- */

  lemma NoteHere(lasts: seq<bool>, x: string)
    ensures NoteOf(Lead(lasts) + "    class " + (x + ""), lasts) == Some(OfClass(x))
    ensures NoteOf(Lead(lasts) + "    def " + (x + "()"), lasts) == Some(OfFunction(x))
    ensures NoteOf(Lead(lasts) + ("    # Error: " + x), lasts) == Some(OfError(x))
  {
    ClassHere(lasts, x);
    FunctionHere(lasts, x);
    ErrorHere(lasts, x);
  }

  lemma ClassHere(lasts: seq<bool>, x: string)
    ensures NoteOf(Lead(lasts) + "    class " + (x + ""), lasts) == Some(OfClass(x))
  {
    var y := "class " + x;
    assert x + "" == x && "    class " + x == "    " + y;
    LedNote(Lead(lasts), "    class ", x, y, lasts);
    assert y[..6] == "class " && y[6..] == x;
  }

  lemma FunctionHere(lasts: seq<bool>, x: string)
    ensures NoteOf(Lead(lasts) + "    def " + (x + "()"), lasts) == Some(OfFunction(x))
  {
    var y := "def " + x + "()";
    assert "    def " + (x + "()") == "    " + y;
    LedNote(Lead(lasts), "    def ", x + "()", y, lasts);
    assert y[..4] == "def " && y[0] == 'd' && y[4..|y| - 2] == x && y[|y| - 2..] == "()";
  }

  lemma ErrorHere(lasts: seq<bool>, x: string)
    ensures NoteOf(Lead(lasts) + ("    # Error: " + x), lasts) == Some(OfError(x))
  {
    var y := "# Error: " + x;
    assert "    # Error: " + x == "    " + y;
    LedNote(Lead(lasts), "", "    # Error: " + x, y, lasts);
    assert Lead(lasts) + "" == Lead(lasts) && "" + ("    # Error: " + x) == "    # Error: " + x;
    assert y[..9] == "# Error: " && y[0] == '#' && y[9..] == x;
  }

  lemma LedNote(lead: string, a: string, b: string, y: string, lasts: seq<bool>)
    requires lead == Lead(lasts) && a + b == "    " + y
    ensures NoteOf(lead + a + b, lasts) == TextOf(y)
  {
    Regroup3(lead, a, b);
    Regroup3(lead, "    ", y);
    Stripped(lead + "    ", y);
  }

  lemma Regroup3(a: string, b: string, c: string)
    ensures a + (b + c) == a + b + c
  {}

  lemma Stripped(lead: string, y: string)
    ensures lead <= lead + y && (lead + y)[|lead|..] == y
  {}

  /** Lines that are all notes, in front of one that is none. */
  lemma {:induction false} NotesAll(lines: seq<string>, more: seq<string>, lasts: seq<bool>, notes: seq<Note>)
    requires |lines| == |notes| && (forall i :: 0 <= i < |lines| ==> NoteOf(lines[i], lasts) == Some(notes[i]))
    requires Quiet(more)
    ensures Notes(lines + more, lasts) == notes
    decreases |lines|
  {
    if lines == [] {
      assert [] + more == more;
    } else {
      assert (lines + more)[0] == lines[0] && (lines + more)[1..] == lines[1..] + more;
      NotesAll(lines[1..], more, lasts, notes[1..]);
      assert notes == [notes[0]] + notes[1..];
    }
  }

  /** The lines printed for symbols are read as these. */
  lemma {:induction false} SymbolsNoted(lasts: seq<bool>, s: Symbols)
    ensures var lines := SymbolLines(Lead(lasts), s);
            |lines| == |NotesFor(s)| &&
            forall i :: 0 <= i < |lines| ==> NoteOf(lines[i], lasts) == Some(NotesFor(s)[i])
  {
    forall x: string
      ensures NoteOf(Lead(lasts) + "    class " + (x + ""), lasts) == Some(OfClass(x))
      ensures NoteOf(Lead(lasts) + "    def " + (x + "()"), lasts) == Some(OfFunction(x))
      ensures NoteOf(Lead(lasts) + ("    # Error: " + x), lasts) == Some(OfError(x))
    {
      NoteHere(lasts, x);
    }
  }

  /* ---------- Listings ---------- */

  lemma {:induction false} NotesLocal(a: seq<string>, b: seq<string>, lasts: seq<bool>)
    requires Quiet(b)
    ensures Notes(a + b, lasts) == Notes(a, lasts)
    decreases |a|
  {
    if a == [] {
      assert a + b == b;
    } else {
      assert (a + b)[0] == a[0] && (a + b)[1..] == a[1..] + b;
      if NoteOf(a[0], lasts).Some? {
        NotesLocal(a[1..], b, lasts);
      }
    }
  }

  lemma {:induction false} RowsConcat(a: seq<string>, b: seq<string>, dir: Path)
    requires Quiet(b)
    ensures ReadRows(a + b, dir) == ReadRows(a, dir) + ReadRows(b, RowDir(a, dir))
    ensures RowDir(a + b, dir) == RowDir(b, RowDir(a, dir))
    decreases |a|
  {
    if a == [] {
      assert a + b == b;
    } else {
      assert (a + b)[0] == a[0] && (a + b)[1..] == a[1..] + b;
      match HeadOf(a[0])
      case None => RowsConcat(a[1..], b, dir);
      case Some(h) =>
        NotesLocal(a[1..], b, h.lasts);
        if h.lasts != [] && |h.lasts| - 1 <= |dir| && h.dir {
          RowsConcat(a[1..], b, dir[..|h.lasts| - 1] + [h.name]);
        } else {
          RowsConcat(a[1..], b, dir);
        }
    }
  }

  lemma {:induction false} NoRows(lines: seq<string>, dir: Path)
    requires forall t :: t in lines ==> HeadOf(t).None?
    ensures ReadRows(lines, dir) == [] && RowDir(lines, dir) == dir
  {
    if lines != [] {
      assert lines[0] in lines && forall t :: t in lines[1..] ==> t in lines;
      NoRows(lines[1..], dir);
    }
  }

  /** A file, or a directory taken for one, is read with its symbols. */
  lemma {:induction false} FileRow(name: string, s: Symbols, lasts: seq<bool>, last: bool, p: Path, dir: Path)
    requires GoodName(name) && |lasts| == |p| && p <= dir
    ensures ReadRows(FileLines(name, s, last, Lead(lasts)), dir) == [Row(p + [name], lasts + [last], NotesFor(s))]
    ensures RowDir(FileLines(name, s, last, Lead(lasts)), dir) == dir
  {
    var lines := SymbolLines(Lead(lasts) + Pad(last), s);
    var head := Lead(lasts) + (Connector(last) + name);
    LeadMore(lasts, last);
    NamedHere(lasts, last, name);
    SymbolsNoted(lasts + [last], s);
    NotesAll(lines, [], lasts + [last], NotesFor(s));
    assert lines + [] == lines && dir[..|p|] == p && ([head] + lines)[1..] == lines;
    forall t | t in lines ensures HeadOf(t).None? {
      NoteNoHead(t, lasts + [last]);
    }
    NoRows(lines, dir);
  }
}
