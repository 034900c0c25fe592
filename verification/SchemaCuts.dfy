/** Lines cut off at the brace that closes their path object, and the methods still found in them. */
module SchemaCuts {
  import opened Text
  import opened Regex
  import opened SchemaScan
  import opened SchemaDocument
  import opened SchemaPatterns
  import opened SchemaLines

  /** The lines up to the one in which the depth drops to 0, every brace counted. */
  function UpToClose(lines: seq<Line>, d: nat): seq<Line>
    requires d > 0
  {
    if lines == [] then []
    else
      match Level(lines[0].Text(), d)
      case None => [lines[0]]
      case Some(c) => [lines[0]] + UpToClose(lines[1..], c)
  }

  /** The first brace loop position behind a line break and a line. */
  lemma {:induction false} CloseBehind(t: string, more: string, d: nat)
    requires d > 0
    ensures CloseAt("\n" + (t + more), d) ==
            match Level(t, d)
            case None => Later(CloseAt(t, d), 1)
            case Some(c) => Later(CloseAt(more, c), 1 + |t|)
  {
    assert ("\n" + (t + more))[1..] == t + more;
    if Level(t, d).Some? {
      LevelConcat(t, more, d);
    } else {
      IsClosed(t, d);
      CloseLocal(t, more, d);
    }
  }

  /* ---------- A line cut off ---------- */

  /** Where the rest of an operation line begins. */
  function RestAt(l: Line): nat
    requires l.Op?
  {
    l.indent + |l.name| + 1 + l.gap + |l.opener|
  }

  /** The first `j` characters of a line, as a line. */
  function Trim(l: Line, j: nat): Line
    requires j <= |l.Text()|
  {
    match l
    case Op(indent, name, gap, opener, rest) =>
      Op(indent, name, gap, opener, if j < RestAt(l) then "" else rest[..j - RestAt(l)])
    case _ => Code(l.Text()[..j])
  }

  lemma OpSplits(l: Line)
    requires l.Op?
    ensures var front := Blanks(l.indent) + (l.name + (":" + (Blanks(l.gap) + l.opener)));
            |front| == RestAt(l) && l.Text() == front + l.rest
  {
    var g, n := Blanks(l.gap), Blanks(l.indent);
    assert g + (l.opener + l.rest) == g + l.opener + l.rest;
    assert ":" + (g + (l.opener + l.rest)) == ":" + (g + l.opener) + l.rest;
    assert l.name + (":" + (g + (l.opener + l.rest))) == l.name + (":" + (g + l.opener)) + l.rest;
  }

  /** A closing brace in an operation line stands behind its opener. */
  lemma OpBrace(l: Line, j: nat)
    requires l.Valid() && l.Op? && j < |l.Text()| && l.Text()[j] == '}'
    ensures RestAt(l) <= j
  {
    OpSplits(l);
    MethodLetters(l.name);
    assert '}' !in l.name && '}' !in l.opener;
    assert '}' !in Blanks(l.indent) + (l.name + (":" + (Blanks(l.gap) + l.opener)));
  }

  lemma TrimOp(l: Line, j: nat)
    requires l.Valid() && l.Op? && RestAt(l) <= j <= |l.Text()|
    ensures Trim(l, j).Valid() && Trim(l, j).Text() == l.Text()[..j]
  {
    OpSplits(l);
    OpSplits(Trim(l, j));
  }

  lemma {:induction false} InertPrefix(t: string, j: nat)
    requires InertText(t) && RunLength(Space, t) < j <= |t|
    ensures InertText(t[..j])
  {
    var n := RunLength(Space, t);
    RunLengthIs(Space, t[..j], n);
    assert Word(t[..j]) == Word(t)[..j - n];
    StartOf("\"/", Word(t), j - n);
    forall m | m in METHODS ensures !(m + ":" <= Word(t[..j])) {
      StartOf(m + ":", Word(t), j - n);
    }
  }

  lemma StartOf(k: string, x: string, n: nat)
    requires n <= |x|
    ensures k <= x[..n] ==> k <= x
  {
    if k <= x[..n] {
      assert x[..|k|] == x[..n][..|k|];
    }
  }

  /** A line cut off behind a closing brace is still a line, and looks like the same method. */
  lemma TrimValid(l: Line, j: nat)
    requires l.Valid() && j < |l.Text()| && l.Text()[j] == '}'
    ensures Trim(l, j + 1).Valid() && Trim(l, j + 1).Text() == l.Text()[..j + 1]
    ensures Trim(l, j + 1).Methods() == l.Methods()
  {
    if l.Op? {
      OpBrace(l, j);
      TrimOp(l, j + 1);
    } else {
      TrimInert(l.Text(), j);
    }
  }

  lemma TrimInert(t: string, j: nat)
    requires InertText(t) && j < |t| && t[j] == '}'
    ensures InertText(t[..j + 1])
  {
    assert RunLength(Space, t) <= j;
    InertPrefix(t, j + 1);
  }

  /** In a line cut off before a closing brace the same method is found as in the whole line. */
  lemma {:induction false} ScanCut(a: seq<Atom>, l: Line, j: nat, bol: bool)
    requires IsImpl(a) && l.Valid() && j < |l.Text()| && l.Text()[j] == '}'
    ensures MethodsIn(a, "\n" + l.Text()[..j], bol) == l.Methods()
  {
    var t := l.Text()[..j];
    assert t + "" == t;
    if l.Op? {
      OpBrace(l, j);
      TrimOp(l, j);
      ScanOp(a, Trim(l, j), "", bol);
    } else if RunLength(Space, l.Text()) < j {
      InertPrefix(l.Text(), j);
      ScanInert(a, t, "", bol);
    } else {
      ScanSpaces(a, "\n" + t, bol);
    }
  }

  /* ---------- A block cut off ---------- */

  lemma {:induction false} ScanUpTo(a: seq<Atom>, lines: seq<Line>, d: nat, bol: bool)
    requires IsImpl(a) && d > 0 && (forall l :: l in lines ==> l.Valid()) && CloseAt(Interior(lines), d).Some?
    ensures MethodsIn(a, Interior(lines)[..CloseAt(Interior(lines), d).value], bol) == Spotted(UpToClose(lines, d))
    decreases |lines|
  {
    var l, more := lines[0], Interior(lines[1..]);
    var t := l.Text();
    assert l in lines;
    CloseBehind(t, more, d);
    match Level(t, d)
    case None =>
      var j := CloseAt(t, d).value;
      UpToFirst(t, more, j);
      ScanCut(a, l, j, bol);
      OneSpotted(l);
    case Some(c) =>
      var n := CloseAt(more, c).value;
      UpToLater(t, more, n);
      ScanNext(a, l, lines[1..], n, bol);
      ScanUpTo(a, lines[1..], c, false);
      SpottedCons(l, UpToClose(lines[1..], c));
  }

  lemma UpToFirst(t: string, more: string, j: nat)
    requires j <= |t|
    ensures ("\n" + (t + more))[..1 + j] == "\n" + t[..j]
  {}

  lemma UpToLater(t: string, more: string, n: nat)
    requires n <= |more|
    ensures ("\n" + (t + more))[..1 + |t| + n] == "\n" + (t + more[..n])
  {}

  lemma ScanNext(a: seq<Atom>, l: Line, rest: seq<Line>, n: nat, bol: bool)
    requires IsImpl(a) && l.Valid() && n <= |Interior(rest)|
    ensures MethodsIn(a, "\n" + (l.Text() + Interior(rest)[..n]), bol) ==
            l.Methods() + MethodsIn(a, Interior(rest)[..n], false)
  {
    InteriorStarts(rest, n);
    ScanLine(a, l, Interior(rest)[..n], bol);
  }

  lemma InteriorStarts(lines: seq<Line>, n: nat)
    requires n <= |Interior(lines)|
    ensures Interior(lines)[..n] == "" || Interior(lines)[..n][0] == '\n'
  {}

  lemma OneSpotted(l: Line)
    ensures Spotted([l]) == l.Methods()
  {
    assert [l][1..] == [] && l.Methods() + [] == l.Methods();
  }

  lemma {:induction false} SpottedCons(l: Line, rest: seq<Line>)
    ensures Spotted([l] + rest) == l.Methods() + Spotted(rest)
  {
    assert ([l] + rest)[1..] == rest;
  }

  lemma {:induction false} ScanAll(a: seq<Atom>, lines: seq<Line>, d: nat, bol: bool)
    requires IsImpl(a) && d > 0 && (forall l :: l in lines ==> l.Valid()) && CloseAt(Interior(lines), d).None?
    ensures MethodsIn(a, Interior(lines), bol) == Spotted(lines) && UpToClose(lines, d) == lines
    decreases |lines|
  {
    if lines != [] {
      var l, more := lines[0], Interior(lines[1..]);
      assert l in lines && lines == [l] + lines[1..];
      CloseBehind(l.Text(), more, d);
      if Level(l.Text(), d).None? {
        IsClosed(l.Text(), d);
      }
      InteriorStarts(lines[1..], |more|);
      ScanLine(a, l, more, bol);
      ScanAll(a, lines[1..], Level(l.Text(), d).value, false);
    }
  }

  /** In a block the methods are found of the lines up to the one that closes its path object. */
  lemma BlockFinds(a: seq<Atom>, lines: seq<Line>)
    requires IsImpl(a) && lines != [] && forall l :: l in lines ==> l.Valid()
    ensures MethodsIn(a, PathBody(Interior(lines)), true) == Spotted(UpToClose(lines, 1))
  {
    match CloseAt(Interior(lines), 1)
    case None => ScanAll(a, lines, 1, true);
    case Some(n) =>
      assert Interior(lines)[0] == '\n';
      ScanUpTo(a, lines, 1, true);
  }

  /** Lines behind that look like no method change nothing. */
  lemma {:induction false} ExtraSpots(lines: seq<Line>, extra: seq<Line>, d: nat)
    requires d > 0 && forall l :: l in extra ==> !l.Op?
    ensures Spotted(UpToClose(lines + extra, d)) == Spotted(UpToClose(lines, d))
    decreases |lines| + |extra|
  {
    if lines == [] {
      assert lines + extra == extra;
      if extra != [] {
        assert extra[0] in extra;
        OneSpotted(extra[0]);
        if Level(extra[0].Text(), d).Some? {
          var c := Level(extra[0].Text(), d).value;
          assert [] + extra[1..] == extra[1..];
          ExtraSpots([], extra[1..], c);
          SpottedCons(extra[0], UpToClose(extra[1..], c));
        }
      }
    } else {
      assert (lines + extra)[0] == lines[0] && (lines + extra)[1..] == lines[1..] + extra;
      if Level(lines[0].Text(), d).Some? {
        var c := Level(lines[0].Text(), d).value;
        ExtraSpots(lines[1..], extra, c);
        SpottedCons(lines[0], UpToClose(lines[1..] + extra, c));
        SpottedCons(lines[0], UpToClose(lines[1..], c));
      }
    }
  }

  /* ---------- An interface cut off inside a path object ---------- */

  /** The lines up to and including the brace that drops the depth to 0. */
  function CutLines(lines: seq<Line>, d: nat): seq<Line>
    requires d > 0
  {
    if lines == [] then []
    else
      match Level(lines[0].Text(), d)
      case None =>
        IsClosed(lines[0].Text(), d);
        [Trim(lines[0], CloseAt(lines[0].Text(), d).value + 1)]
      case Some(c) => [lines[0]] + CutLines(lines[1..], c)
  }

  lemma {:induction false} CutCons(l: Line, rest: seq<Line>, d: nat)
    requires d > 0
    ensures match Level(l.Text(), d)
            case None =>
              CloseAt(l.Text(), d).Some? && CutLines([l] + rest, d) == [Trim(l, CloseAt(l.Text(), d).value + 1)]
            case Some(c) => CutLines([l] + rest, d) == [l] + CutLines(rest, c)
  {
    if Level(l.Text(), d).None? {
      IsClosed(l.Text(), d);
    }
    assert ([l] + rest)[1..] == rest;
  }

  /** Lines that make up the text up to the brace that drops the depth to 0. */
  ghost predicate IsCut(cut: seq<Line>, s: string, d: nat)
    requires d > 0
  {
    CloseAt(s, d).Some? && Interior(cut) == s[..CloseAt(s, d).value + 1] && cut != [] &&
    forall l :: l in cut ==> l.Valid()
  }

  lemma {:induction false} CutText(lines: seq<Line>, d: nat)
    requires d > 0 && (forall l :: l in lines ==> l.Valid()) && CloseAt(Interior(lines), d).Some?
    ensures IsCut(CutLines(lines, d), Interior(lines), d)
    decreases |lines|
  {
    var l, rest := lines[0], lines[1..];
    assert l in lines && lines == [l] + rest && forall k :: k in rest ==> k in lines;
    if Level(l.Text(), d).None? {
      CutStop(l, rest, d);
    } else {
      var c := Level(l.Text(), d).value;
      InteriorOf(l, rest);
      CloseBehind(l.Text(), Interior(rest), d);
      CutText(rest, c);
      CutStep(l, rest, c, d);
    }
  }

  lemma CutStop(l: Line, rest: seq<Line>, d: nat)
    requires l.Valid() && d > 0 && Level(l.Text(), d).None?
    ensures IsCut(CutLines([l] + rest, d), Interior([l] + rest), d)
  {
    InteriorOf(l, rest);
    CutCons(l, rest, d);
    CutFirst(l, Interior(rest), d);
  }

  lemma CutStep(l: Line, rest: seq<Line>, c: nat, d: nat)
    requires l.Valid() && c > 0 && d > 0 && Level(l.Text(), d) == Some(c)
    requires IsCut(CutLines(rest, c), Interior(rest), c)
    ensures IsCut(CutLines([l] + rest, d), Interior([l] + rest), d)
  {
    InteriorOf(l, rest);
    CutCons(l, rest, d);
    CutLater(l, CutLines(rest, c), Interior(rest), c, d);
  }

  lemma CutFirst(l: Line, more: string, d: nat)
    requires l.Valid() && d > 0 && Level(l.Text(), d).None?
    ensures CloseAt(l.Text(), d).Some?
    ensures IsCut([Trim(l, CloseAt(l.Text(), d).value + 1)], "\n" + (l.Text() + more), d)
  {
    IsClosed(l.Text(), d);
    CutHere(l, l.Text(), more, CloseAt(l.Text(), d).value, d);
  }

  lemma CutHere(l: Line, t: string, more: string, j: nat, d: nat)
    requires l.Valid() && t == l.Text() && d > 0 && Level(t, d).None? && CloseAt(t, d) == Some(j)
    ensures IsCut([Trim(l, j + 1)], "\n" + (t + more), d)
  {
    TrimValid(l, j);
    CutLine(Trim(l, j + 1), t, more, j, d);
  }

  lemma CutLine(cut: Line, t: string, more: string, j: nat, d: nat)
    requires d > 0 && Level(t, d).None? && CloseAt(t, d) == Some(j) && cut.Valid() && cut.Text() == t[..j + 1]
    ensures IsCut([cut], "\n" + (t + more), d)
  {
    CloseBehind(t, more, d);
    OneInterior(cut);
    UpToFirst(t, more, j + 1);
  }

  lemma CutLater(l: Line, cut: seq<Line>, more: string, c: nat, d: nat)
    requires l.Valid() && c > 0 && d > 0 && Level(l.Text(), d) == Some(c) && IsCut(cut, more, c)
    ensures IsCut([l] + cut, "\n" + (l.Text() + more), d)
  {
    CloseBehind(l.Text(), more, d);
    InteriorOf(l, cut);
    UpToLater(l.Text(), more, CloseAt(more, c).value + 1);
  }

  lemma OneInterior(l: Line)
    ensures Interior([l]) == "\n" + l.Text()
  {
    assert [l][1..] == [] && l.Text() + "" == l.Text();
  }

  lemma {:induction false} InteriorOf(l: Line, rest: seq<Line>)
    ensures Interior([l] + rest) == "\n" + (l.Text() + Interior(rest))
  {
    assert ([l] + rest)[1..] == rest;
  }

  /** The level of an interior goes from line to line. */
  lemma InteriorLevel(l: Line, rest: seq<Line>, d: nat)
    requires d > 0
    ensures Level(Interior([l] + rest), d) ==
            match Level(l.Text(), d)
            case None => None
            case Some(c) => Level(Interior(rest), c)
  {
    InteriorOf(l, rest);
    var t, more := l.Text(), Interior(rest);
    assert ("\n" + (t + more))[1..] == t + more;
    LevelJoin(t, more, d);
  }

  /** The cut takes away no line in front of the close of the path object, which comes first. */
  lemma {:induction false} CutSpots(lines: seq<Line>, c: nat, d: nat)
    requires 0 < c <= d && forall l :: l in lines ==> l.Valid()
    ensures Spotted(UpToClose(CutLines(lines, d), c)) == Spotted(UpToClose(lines, c))
    decreases |lines|
  {
    if lines != [] {
      var l, rest := lines[0], lines[1..];
      assert l in lines;
      LevelDeeper(l.Text(), c, d);
      assert lines == [l] + rest;
      FirstKept(l, rest, c);
      CutCons(l, rest, d);
      match Level(l.Text(), d)
      case None => TrimSpots(l, c, d);
      case Some(e) =>
        FirstKept(l, CutLines(rest, e), c);
        if Level(l.Text(), c).Some? {
          CutSpots(rest, Level(l.Text(), c).value, e);
        }
    }
  }

  lemma TrimSpots(l: Line, c: nat, d: nat)
    requires l.Valid() && c > 0 && d > 0 && Level(l.Text(), d).None?
    ensures CloseAt(l.Text(), d).Some?
    ensures Spotted(UpToClose([Trim(l, CloseAt(l.Text(), d).value + 1)], c)) == l.Methods() == Spotted([l])
  {
    IsClosed(l.Text(), d);
    var j := CloseAt(l.Text(), d).value;
    TrimValid(l, j);
    OneSpotted(l);
    OneSpotted(Trim(l, j + 1));
    OnlyOne(Trim(l, j + 1), c);
  }

  lemma OnlyOne(l: Line, d: nat)
    requires d > 0
    ensures UpToClose([l], d) == [l]
  {
    assert [l][1..] == [];
  }

  lemma FirstKept(l: Line, rest: seq<Line>, d: nat)
    requires d > 0
    ensures Spotted(UpToClose([l] + rest, d)) ==
            match Level(l.Text(), d)
            case None => l.Methods()
            case Some(c) => l.Methods() + Spotted(UpToClose(rest, c))
  {
    assert ([l] + rest)[1..] == rest;
    OneSpotted(l);
    if Level(l.Text(), d).Some? {
      SpottedCons(l, UpToClose(rest, Level(l.Text(), d).value));
    }
  }
}
