/** Schema documents in the shape the generator prints, and the balance of their braces. */
module SchemaDocument {
  import opened Text
  import opened Regex
  import opened SchemaScan

  /* ---------- Lines ---------- */

  /** A line inside a path object: one that looks like an implemented method, other code, or part of
      a comment. */
  datatype Line =
    | Op(indent: nat, name: string, gap: nat, opener: string, rest: string)
    | Code(text: string)
    | Comment(text: string)
  {
    function Text(): string {
      match this
      case Op(indent, name, gap, opener, rest) => Blanks(indent) + (name + (":" + (Blanks(gap) + (opener + rest))))
      case Code(text) => text
      case Comment(text) => text
    }

    /** No line breaks; a line of a comment begins with its star. */
    ghost predicate Valid() {
      match this
      case Op(indent, name, gap, opener, rest) =>
        indent > 0 && name in METHODS && opener in ["operations[", "{"] && '\n' !in rest
      case Code(text) => InertText(text)
      case Comment(text) => InertText(text) && ("*" <= Word(text) || "/*" <= Word(text))
    }

    /** The method a line looks like, wherever it stands. */
    function Methods(): seq<string> { if Op? then [name] else [] }
  }

  function Blanks(n: nat): (r: string)
    ensures |r| == n && forall i :: 0 <= i < n ==> r[i] == ' '
  {
    seq(n, _ => ' ')
  }

  /** A line without its indent. */
  function Word(text: string): string { text[RunLength(Space, text)..] }

  /** A single line with something on it that is neither a path key nor a method with a colon. */
  ghost predicate InertText(text: string) {
    '\n' !in text && Word(text) != "" && !("\"/" <= Word(text)) && forall m :: m in METHODS ==> !(m + ":" <= Word(text))
  }

  /** Lines, each with the line break before it. */
  function Interior(lines: seq<Line>): string {
    if lines == [] then "" else "\n" + (lines[0].Text() + Interior(lines[1..]))
  }

  /** The methods that the lines look like, whatever their depth. */
  function Spotted(lines: seq<Line>): seq<string> {
    if lines == [] then [] else lines[0].Methods() + Spotted(lines[1..])
  }

  /* ---------- Depth ---------- */

  /** The depth reached from `d`, if it never drops to 0. */
  function Level(s: string, d: nat): (r: Option<nat>)
    requires d > 0
    ensures r.Some? ==> r.value > 0
  {
    if s == "" then Some(d)
    else if s[0] == '{' then Level(s[1..], d + 1)
    else if s[0] == '}' then (if d == 1 then None else Level(s[1..], d - 1))
    else Level(s[1..], d)
  }

  /** The depth behind a line. The braces of a comment do not count. */
  function Behind(l: Line, d: nat): (r: Option<nat>)
    requires d > 0
    ensures r.Some? ==> r.value > 0
  {
    if l.Comment? then Some(d) else Level(l.Text(), d)
  }

  /** The depth behind all lines. */
  function DepthAfter(lines: seq<Line>, d: nat): Option<nat>
    requires d > 0
  {
    if lines == [] then Some(d)
    else
      match Behind(lines[0], d)
      case None => None
      case Some(c) => DepthAfter(lines[1..], c)
  }

  /** The methods a path object states: those of the lines at its own depth, which is 1. */
  function MethodsOf(lines: seq<Line>, d: nat): seq<string>
    requires d > 0
  {
    if lines == [] then []
    else
      (if d == 1 then lines[0].Methods() else []) +
      match Behind(lines[0], d)
      case None => []
      case Some(c) => MethodsOf(lines[1..], c)
  }

  /* ---------- Documents ---------- */

  const CLOSING := Code("    };")

  /** A path object: the key is a slash and the tail. Its code closes what it opens; its comments
      say what they like. */
  datatype Entry = Entry(tail: string, lines: seq<Line>) {
    ghost predicate Valid() {
      tail != "" && '"' !in tail && Balanced(tail) &&
      (forall l :: l in lines ==> l.Valid()) && DepthAfter(lines, 1) == Some(1)
    }

    /** The braces balance even if those of the comments are counted. */
    predicate Tight() { Balanced(Interior(lines)) }

    function Inside(): seq<Line> { lines + [CLOSING] }

    function Text(): string { "\n    \"/" + (tail + ("\": {" + Interior(Inside()))) }
  }

  function Blocks(entries: seq<Entry>): string {
    if entries == [] then "" else entries[0].Text() + Blocks(entries[1..])
  }

  /** A whole file. */
  function Document(header: string, entries: seq<Entry>, rest: string): string {
    header + MARKER + " {" + (Blocks(entries) + ("\n}" + rest))
  }

  /** The operations a document states. */
  function Stated(entries: seq<Entry>): set<string> {
    if entries == [] then {} else BlockOps(entries[0].tail, MethodsOf(entries[0].lines, 1)) + Stated(entries[1..])
  }

  /* ---------- Balance ---------- */

  /** Every brace closed, none closed that was not opened. */
  predicate Balanced(s: string) { Level(s, 1) == Some(1) }

  lemma {:induction false} LevelConcat(a: string, b: string, d: nat)
    requires d > 0 && Level(a, d).Some?
    ensures Level(a + b, d) == Level(b, Level(a, d).value)
    ensures CloseAt(a + b, d) == match CloseAt(b, Level(a, d).value)
                                 case None => None
                                 case Some(i) => Some(|a| + i)
    decreases |a|
  {
    if a == "" {
      assert a + b == b;
    } else {
      assert (a + b)[1..] == a[1..] + b;
      LevelConcat(a[1..], b, if a[0] == '{' then d + 1 else if a[0] == '}' then d - 1 else d);
    }
  }

  lemma {:induction false} LevelShift(s: string, d: nat)
    requires d > 0 && Level(s, d).Some?
    ensures Level(s, d + 1) == Some(Level(s, d).value + 1)
    decreases |s|
  {
    if s != "" {
      LevelShift(s[1..], if s[0] == '{' then d + 1 else if s[0] == '}' then d - 1 else d);
    }
  }

  /** A balanced text leaves any depth unchanged. */
  lemma {:induction false} BalancedAt(s: string, d: nat)
    requires Balanced(s) && d > 0
    ensures Level(s, d) == Some(d)
    decreases d
  {
    if d > 1 {
      BalancedAt(s, d - 1);
      LevelShift(s, d - 1);
    }
  }

  lemma BalancedConcat(a: string, b: string)
    requires Balanced(a) && Balanced(b)
    ensures Balanced(a + b)
  {
    LevelConcat(a, b, 1);
  }

  lemma {:induction false} NoBraces(s: string)
    requires '{' !in s && '}' !in s
    ensures Balanced(s)
  {
    if s != "" {
      NoBraces(s[1..]);
    }
  }

  /** Where the depth never drops to 0, no closing brace is found. */
  lemma NotClosed(s: string, d: nat)
    requires d > 0 && Level(s, d).Some?
    ensures CloseAt(s, d) == None
  {
    assert s + "" == s;
    LevelConcat(s, "", d);
  }

  /** Where it drops to 0, one is. */
  lemma {:induction false} IsClosed(s: string, d: nat)
    requires d > 0 && Level(s, d).None?
    ensures CloseAt(s, d).Some?
  {
    if !(s[0] == '}' && d == 1) {
      IsClosed(s[1..], if s[0] == '{' then d + 1 else if s[0] == '}' then d - 1 else d);
    }
  }

  /** From a greater depth the same text ends deeper by as much. */
  lemma {:induction false} LevelDeeper(s: string, c: nat, d: nat)
    requires 0 < c <= d
    ensures Level(s, c).Some? ==> Level(s, d) == Some(Level(s, c).value + (d - c))
    decreases d - c
  {
    if c < d {
      LevelDeeper(s, c, d - 1);
      if Level(s, d - 1).Some? {
        LevelShift(s, d - 1);
      }
    }
  }

  /** What follows the closing brace does not matter. */
  lemma {:induction false} CloseLocal(s: string, more: string, d: nat)
    requires d > 0 && CloseAt(s, d).Some?
    ensures CloseAt(s + more, d) == CloseAt(s, d)
    decreases |s|
  {
    if !(s[0] == '}' && d == 1) {
      assert (s + more)[1..] == s[1..] + more;
      CloseLocal(s[1..], more, if s[0] == '{' then d + 1 else if s[0] == '}' then d - 1 else d);
    }
  }

  /** Depths add up, also where the first text closes too much. */
  lemma LevelJoin(a: string, b: string, d: nat)
    requires d > 0
    ensures Level(a + b, d) ==
            match Level(a, d)
            case None => None
            case Some(c) => Level(b, c)
  {
    if Level(a, d).Some? {
      LevelConcat(a, b, d);
    } else {
      IsClosed(a, d);
      CloseLocal(a, b, d);
      if Level(a + b, d).Some? {
        NotClosed(a + b, d);
      }
    }
  }

  /* ---------- Levels of short texts ---------- */

  lemma PlainLevel(s: string, d: nat)
    requires d > 0 && '{' !in s && '}' !in s
    ensures Level(s, d) == Some(d)
  {
    NoBraces(s);
    BalancedAt(s, d);
  }

  /** One opening brace between plain text. */
  lemma {:induction false} OpensAt(a: string, b: string, d: nat)
    requires d > 0 && '{' !in a && '}' !in a && '{' !in b && '}' !in b
    ensures Level(a + ("{" + b), d) == Some(d + 1)
  {
    PlainLevel(a, d);
    LevelConcat(a, "{" + b, d);
    assert ("{" + b)[1..] == b;
    PlainLevel(b, d + 1);
  }

  /** One closing brace between plain text. */
  lemma ClosesAt(a: string, b: string, d: nat)
    requires d > 0 && '{' !in a && '}' !in a && '{' !in b && '}' !in b
    ensures Level(a + ("}" + b), d) == if d == 1 then None else Some(d - 1)
  {
    PlainLevel(a, d);
    LevelConcat(a, "}" + b, d);
    assert ("}" + b)[1..] == b;
    if d > 1 {
      PlainLevel(b, d - 1);
    }
  }
}
