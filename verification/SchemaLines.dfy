/** How the two patterns run over lines: splitting at path keys, and scanning for methods. */
module SchemaLines {
  import opened Text
  import opened Regex
  import opened SchemaScan
  import opened SchemaDocument
  import opened SchemaPatterns

  /* ---------- Splitting a document into blocks ---------- */

  lemma PartsStep(a: seq<Atom>, s: string)
    requires |a| > 3 && s != "" && HitOf(a, 3, s).None?
    ensures Parts(a, s) == ([s[0]] + Parts(a, s[1..]).0, Parts(a, s[1..]).1)
  {}

  /** Text in which no key starts stays in front of the first part. */
  lemma {:induction false} PartsCopies(a: seq<Atom>, x: string, y: string)
    requires |a| > 3
    requires forall k :: 0 <= k < |x| ==> HitOf(a, 3, x[k..] + y).None?
    ensures Parts(a, x + y) == (x + Parts(a, y).0, Parts(a, y).1)
    decreases |x|
  {
    if x == "" {
      assert x + y == y && x + Parts(a, y).0 == Parts(a, y).0;
    } else {
      assert x[0..] == x;
      assert (x + y)[1..] == x[1..] + y;
      PartsStep(a, x + y);
      forall k | 0 <= k < |x[1..]| ensures HitOf(a, 3, x[1..][k..] + y).None? {
        assert x[1..][k..] == x[k + 1..];
      }
      PartsCopies(a, x[1..], y);
      assert [x[0]] + (x[1..] + Parts(a, y).0) == x + Parts(a, y).0;
    }
  }

  /** A line, with the line break before it, that is not blank and does not start with a quoted
      slash, followed by the end of its line. */
  ghost predicate Quiet(t: string) {
    '\n' !in t && RunLength(Space, t) < |t| && !("\"/" <= t[RunLength(Space, t)..])
  }

  lemma {:induction false} RunLengthConcat(cls: Class, t: string, y: string)
    requires RunLength(cls, t) < |t|
    ensures RunLength(cls, t + y) == RunLength(cls, t)
  {
    RunLengthIs(cls, t + y, RunLength(cls, t));
  }

  lemma {:induction false} PartsQuiet(a: seq<Atom>, t: string, y: string)
    requires IsKey(a) && Quiet(t) && (y == "" || y[0] == '\n')
    ensures Parts(a, "\n" + t + y) == ("\n" + t + Parts(a, y).0, Parts(a, y).1)
  {
    var x := "\n" + t;
    assert forall k :: 0 < k < |x| ==> x[k] in t;
    QuietHead(t, y);
    forall k | 0 <= k < |x| ensures HitOf(a, 3, x[k..] + y).None? {
      var z := x[k..] + y;
      assert z[0] == x[k];
      assert k == 0 ==> z[1..] == t + y;
      if HitOf(a, 3, z).Some? {
        KeyStarts(a, z);
      }
    }
    PartsCopies(a, x, y);
  }

  /** A word on one line that begins a longer text begins the line. */
  lemma WordEnds(key: string, w: string, y: string)
    requires '\n' !in key && (y == "" || y[0] == '\n')
    ensures key <= w + y ==> key <= w
  {
    assert forall i :: 0 <= i < |key| ==> key[i] in key;
    if |key| > |w| && y != "" {
      assert (w + y)[|w|] == y[0];
    }
    if key <= w + y {
      assert forall i :: 0 <= i < |key| ==> key[i] == (w + y)[i];
      if |key| <= |w| {
        assert w[..|key|] == key;
      }
    }
  }

  lemma {:induction false} QuietHead(t: string, y: string)
    requires Quiet(t) && (y == "" || y[0] == '\n')
    ensures !("\"/" <= (t + y)[RunLength(Space, t + y)..])
  {
    RunLengthConcat(Space, t, y);
    var n := RunLength(Space, t);
    assert (t + y)[n..] == t[n..] + y;
    WordEnds("\"/", t[n..], y);
  }

  /** The indent of an operation line, and what stands behind it. */
  lemma OpIndent(l: Line)
    requires l.Valid() && l.Op?
    ensures RunLength(Space, l.Text()) == l.indent < |l.Text()|
    ensures l.Text()[l.indent..] == l.name + (":" + (Blanks(l.gap) + (l.opener + l.rest)))
    ensures l.name != "" && 'a' <= l.Text()[l.indent] <= 'z'
  {
    MethodLetters(l.name);
    var word := l.name + (":" + (Blanks(l.gap) + (l.opener + l.rest)));
    assert l.Text() == Blanks(l.indent) + word;
    assert word[0] == l.name[0];
    RunLengthIs(Space, l.Text(), l.indent);
  }

  lemma OpOneLine(l: Line)
    requires l.Valid() && l.Op?
    ensures '\n' !in l.Text()
  {
    MethodLetters(l.name);
    assert '\n' !in l.opener;
    assert '\n' !in l.name;
  }

  lemma LineQuiet(l: Line)
    requires l.Valid()
    ensures Quiet(l.Text()) && l.Text() != ""
  {
    if l.Op? {
      OpOneLine(l);
      OpIndent(l);
    }
  }

  lemma {:induction false} PartsInterior(a: seq<Atom>, lines: seq<Line>, y: string)
    requires IsKey(a) && (forall l :: l in lines ==> l.Valid()) && (y == "" || y[0] == '\n')
    ensures Parts(a, Interior(lines) + y) == (Interior(lines) + Parts(a, y).0, Parts(a, y).1)
  {
    if lines == [] {
      assert Interior(lines) + y == y && Interior(lines) + Parts(a, y).0 == Parts(a, y).0;
    } else {
      var t, rest := lines[0].Text(), Interior(lines[1..]);
      assert lines[0] in lines && forall l :: l in lines[1..] ==> l in lines;
      LineQuiet(lines[0]);
      PartsInterior(a, lines[1..], y);
      InteriorHead(lines[1..], y);
      PartsQuiet(a, t, rest + y);
      LineSplit(t, rest, y);
      LineSplit(t, rest, Parts(a, y).0);
    }
  }

  lemma LineSplit(t: string, rest: string, y: string)
    ensures "\n" + (t + rest) + y == "\n" + t + (rest + y)
  {}

  lemma InteriorHead(lines: seq<Line>, y: string)
    requires y == "" || y[0] == '\n'
    ensures Interior(lines) + y == "" || (Interior(lines) + y)[0] == '\n'
  {
    if lines == [] {
      assert Interior(lines) + y == y;
    }
  }

  lemma Join(a: string, b: string, c: string)
    ensures a + (b + c) == a + b + c
  {}

  /** Splitting behind a path key: the lines up to the next key are its block. */
  lemma PartsKey(a: seq<Atom>, tail: string, lines: seq<Line>, y: string)
    requires IsKey(a) && tail != "" && '"' !in tail && (forall l :: l in lines ==> l.Valid()) &&
             (y == "" || y[0] == '\n')
    ensures Parts(a, "\n    \"/" + (tail + ("\": {" + (Interior(lines) + y)))) ==
            ("", [(tail, Interior(lines) + Parts(a, y).0)] + Parts(a, y).1)
  {
    var inside := Interior(lines) + y;
    var s := "\n    \"/" + (tail + ("\": {" + inside));
    KeyHere(a, tail, inside);
    assert s[7..7 + |tail|] == tail && s[11 + |tail|..] == inside;
    PartsInterior(a, lines, y);
  }

  /* ---------- Scanning a path object for methods ---------- */

  /** The rest of a line, entered anywhere but at its start, holds no method. */
  lemma {:induction false} SkipLine(a: seq<Atom>, x: string, y: string)
    requires IsImpl(a) && '\n' !in x && (y == "" || y[0] == '\n')
    ensures MethodsIn(a, x + y, false) == MethodsIn(a, y, false)
    decreases |x|
  {
    if x == "" {
      assert x + y == y;
    } else {
      assert (x + y)[1..] == x[1..] + y;
      assert x[0] in x;
      SkipLine(a, x[1..], y);
    }
  }

  lemma InertHere(a: seq<Atom>, r: string, t: string, y: string)
    requires IsImpl(a) && InertText(t) && (y == "" || y[0] == '\n')
    requires forall i :: 0 <= i < |r| ==> IsSpace(r[i])
    ensures HitOf(a, 1, r + (t + y)).None?
  {
    var s, n := r + (t + y), RunLength(Space, t);
    if HitOf(a, 1, s).Some? {
      RunLengthIs(Space, s, |r| + n);
      assert s[|r| + n..] == t[n..] + y;
      ImplMeans(a, s);
      var m :| m in METHODS && m + ":" <= s[|r| + n..];
      MethodLetters(m);
      WordEnds(m + ":", t[n..], y);
    }
  }

  lemma TakeHit(a: seq<Atom>, s: string, h: Hit)
    requires |a| > 1 && HitOf(a, 1, s) == Some(h) && h.stop > 0
    ensures MethodsIn(a, s, true) == [s[h.start..h.end]] + MethodsIn(a, s[h.stop..], s[h.stop - 1] == '\n')
  {}

  lemma PassOver(a: seq<Atom>, s: string, bol: bool)
    requires |a| > 1 && s != "" && (bol ==> HitOf(a, 1, s).None?)
    ensures MethodsIn(a, s, bol) == MethodsIn(a, s[1..], s[0] == '\n')
  {}

  /** Scanning over the line break in front of a line. */
  lemma OverBreak(a: seq<Atom>, t: string, y: string, bol: bool)
    requires IsImpl(a) && (bol ==> HitOf(a, 1, "\n" + (t + y)).None?)
    ensures MethodsIn(a, "\n" + (t + y), bol) == MethodsIn(a, t + y, true)
  {
    assert ("\n" + (t + y))[1..] == t + y;
  }

  /** An inert line adds nothing. */
  lemma ScanInert(a: seq<Atom>, t: string, y: string, bol: bool)
    requires IsImpl(a) && InertText(t) && (y == "" || y[0] == '\n')
    ensures MethodsIn(a, "\n" + (t + y), bol) == MethodsIn(a, y, false)
  {
    InertHere(a, "\n", t, y);
    OverBreak(a, t, y, bol);
    InertRest(a, t, y);
  }

  lemma InertRest(a: seq<Atom>, t: string, y: string)
    requires IsImpl(a) && InertText(t) && (y == "" || y[0] == '\n')
    ensures MethodsIn(a, t + y, true) == MethodsIn(a, y, false)
  {
    var s, u := t + y, t[1..];
    assert HitOf(a, 1, s).None? by {
      InertHere(a, "", t, y);
      assert "" + s == s;
    }
    PassOver(a, s, true);
    assert s[1..] == u + y && s[0] == t[0] && t[0] in t;
    SkipLine(a, u, y);
  }

  /** An operation line adds its method. */
  lemma ScanOp(a: seq<Atom>, l: Line, y: string, bol: bool)
    requires IsImpl(a) && l.Valid() && l.Op? && (y == "" || y[0] == '\n')
    ensures MethodsIn(a, "\n" + (l.Text() + y), bol) == [l.name] + MethodsIn(a, y, false)
  {
    if bol {
      OpText(l, y, "\n");
      ScanOpAt(a, "\n" + Blanks(l.indent), l, y);
    } else {
      OverBreak(a, l.Text(), y, false);
      OpText(l, y, "");
      ScanOpAt(a, Blanks(l.indent), l, y);
    }
  }

  function OpBehind(l: Line, y: string): string
    requires l.Op?
  {
    l.name + (":" + (Blanks(l.gap) + (l.opener + (l.rest + y))))
  }

  lemma OpText(l: Line, y: string, r: string)
    requires l.Op?
    ensures r + (l.Text() + y) == r + Blanks(l.indent) + OpBehind(l, y)
    ensures r == "" ==> l.Text() + y == Blanks(l.indent) + OpBehind(l, y)
  {
    var g, n := Blanks(l.gap), Blanks(l.indent);
    assert g + (l.opener + l.rest) + y == g + (l.opener + (l.rest + y));
    assert l.name + (":" + (g + (l.opener + l.rest))) + y == l.name + (":" + (g + (l.opener + l.rest) + y));
    Join(r, n, l.name + (":" + (g + (l.opener + l.rest))) + y);
    Join(n, l.name + (":" + (g + (l.opener + l.rest))), y);
  }

  lemma {:induction false} ScanOpAt(a: seq<Atom>, r: string, l: Line, y: string)
    requires IsImpl(a) && l.Valid() && l.Op? && (y == "" || y[0] == '\n')
    requires r != "" && forall i :: 0 <= i < |r| ==> IsSpace(r[i])
    ensures MethodsIn(a, r + OpBehind(l, y), true) == [l.name] + MethodsIn(a, y, false)
  {
    var s := r + OpBehind(l, y);
    var h := Hit(|r|, |r| + |l.name|, |r| + |l.name| + 1 + l.gap + |l.opener|);
    assert HitOf(a, 1, s) == Some(h) by { OpHere(a, r, l, l.rest + y); }
    HitEnds(r, l, y);
    TakeHit(a, s, h);
    assert MethodsIn(a, l.rest + y, false) == MethodsIn(a, y, false) by { SkipLine(a, l.rest, y); }
  }

  lemma HitEnds(r: string, l: Line, y: string)
    requires l.Valid() && l.Op?
    ensures var s, stop := r + OpBehind(l, y), |r| + |l.name| + 1 + l.gap + |l.opener|;
            stop <= |s| && s[|r|..|r| + |l.name|] == l.name && s[stop..] == l.rest + y && s[stop - 1] != '\n'
  {
    var s, stop := r + OpBehind(l, y), |r| + |l.name| + 1 + l.gap + |l.opener|;
    var front := r + (l.name + (":" + (Blanks(l.gap) + l.opener)));
    assert s == front + (l.rest + y) && |front| == stop;
    assert s[stop - 1] == front[stop - 1] == l.opener[|l.opener| - 1];
    assert l.opener[|l.opener| - 1] == '[' || l.opener[|l.opener| - 1] == '{';
  }

  lemma ScanLine(a: seq<Atom>, l: Line, y: string, bol: bool)
    requires IsImpl(a) && l.Valid() && (y == "" || y[0] == '\n')
    ensures MethodsIn(a, "\n" + (l.Text() + y), bol) == l.Methods() + MethodsIn(a, y, false)
  {
    if l.Op? {
      ScanOp(a, l, y, bol);
    } else {
      ScanInert(a, l.Text(), y, bol);
    }
  }

  lemma JoinMethods(a: seq<string>, b: seq<string>, c: seq<string>)
    ensures a + (b + c) == a + b + c
  {}

  lemma {:induction false} ScanSpaces(a: seq<Atom>, y: string, bol: bool)
    requires IsImpl(a) && forall i :: 0 <= i < |y| ==> IsSpace(y[i])
    ensures MethodsIn(a, y, bol) == []
    decreases |y|
  {
    if y != "" {
      if HitOf(a, 1, y).Some? {
        RunLengthIs(Space, y, |y|);
        ImplMeans(a, y);
      }
      ScanSpaces(a, y[1..], y[0] == '\n');
    }
  }
}
