/** Inputs on which reading a schema does not give what it states. */
module SchemaLimits {
  import opened Text
  import opened Regex
  import opened SchemaScan
  import opened SchemaDocument
  import opened SchemaPatterns
  import opened SchemaLines
  import opened SchemaCuts
  import opened SchemaRoundTrip
  import opened SchemaExact

  /* ---------- Lines and their levels ---------- */

  lemma CodeWord(n: nat, word: string)
    requires word != "" && word[0] == '}' && '\n' !in word
    ensures Code(Blanks(n) + word).Valid()
  {
    RunLengthIs(Space, Blanks(n) + word, n);
    assert Word(Blanks(n) + word) == word;
    NoMethodAt(word);
  }

  lemma CommentWord(n: nat, word: string)
    requires word != "" && word[0] == '*' && '\n' !in word
    ensures Comment(Blanks(n) + word).Valid()
  {
    RunLengthIs(Space, Blanks(n) + word, n);
    assert Word(Blanks(n) + word) == word;
    forall m | m in METHODS ensures !(m + ":" <= word) {
      MethodLetters(m);
      assert (m + ":")[0] == m[0];
    }
    assert word[..1] == "*";
  }

  lemma OpOpens(l: Line, d: nat)
    requires l.Valid() && l.Op? && l.opener == "{" && l.rest == "" && d > 0
    ensures Level(l.Text(), d) == Some(d + 1)
  {
    var a := Blanks(l.indent) + (l.name + (":" + Blanks(l.gap)));
    MethodLetters(l.name);
    OpSplits(l);
    assert l.Text() == a + ("{" + "");
    OpensAt(a, "", d);
  }

  lemma CodeCloses(n: nat, d: nat)
    requires d > 0
    ensures Level(Blanks(n) + "};", d) == if d == 1 then None else Some(d - 1)
  {
    assert "};" == "}" + ";";
    ClosesAt(Blanks(n), ";", d);
  }

  /* ---------- A nested key named like a method ---------- */

  /** An object for the method `m` written out in place, with a member called `n`. */
  function NestedLines(m: string, n: string): seq<Line> {
    [Op(8, m, 1, "{", "")] + ([Op(12, n, 1, "{", "")] + ([Code(Blanks(12) + "};")] + ([Code(Blanks(8) + "};")] + [])))
  }

  lemma NestedValid(m: string, n: string)
    requires m in METHODS && n in METHODS
    ensures forall l :: l in NestedLines(m, n) ==> l.Valid()
  {
    CodeWord(12, "};");
    CodeWord(8, "};");
  }

  lemma NestedDepths(m: string, n: string)
    requires m in METHODS && n in METHODS
    ensures forall l :: l in NestedLines(m, n) ==> l.Valid()
    ensures Level(Interior(NestedLines(m, n)), 1) == Some(1)
    ensures DepthAfter(NestedLines(m, n), 1) == Some(1)
    ensures MethodsOf(NestedLines(m, n), 1) == [m] && Spotted(NestedLines(m, n)) == [m, n]
  {
    var a, b, c, e := Op(8, m, 1, "{", ""), Op(12, n, 1, "{", ""), Code(Blanks(12) + "};"), Code(Blanks(8) + "};");
    NestedValid(m, n);
    OpOpens(a, 1);
    OpOpens(b, 2);
    CodeCloses(12, 3);
    CodeCloses(8, 2);
    NestedLine(e, [], 2);
    NestedLine(c, [e] + [], 3);
    NestedLine(b, [c] + ([e] + []), 2);
    NestedLine(a, [b] + ([c] + ([e] + [])), 1);
  }

  /** A line of code in front of others. */
  lemma NestedLine(l: Line, rest: seq<Line>, d: nat)
    requires d > 0 && !l.Comment? && Level(l.Text(), d).Some?
    ensures var c := Level(l.Text(), d).value;
            Level(Interior([l] + rest), d) == Level(Interior(rest), c) &&
            DepthAfter([l] + rest, d) == DepthAfter(rest, c) &&
            MethodsOf([l] + rest, d) == (if d == 1 then l.Methods() else []) + MethodsOf(rest, c) &&
            Spotted([l] + rest) == l.Methods() + Spotted(rest)
  {
    InteriorLevel(l, rest, d);
    assert ([l] + rest)[1..] == rest;
  }

  /** A member of an inline operation object that has the name of a method is read as an operation
      of the path, so such a schema is read correctly only if it is the same method. */
  lemma NestedKeyRead(header: string, tail: string, m: string, n: string, rest: string)
    requires MarkerFirst(header) && tail != "" && '"' !in tail && Balanced(tail) && m in METHODS && n in METHODS
    ensures var entries := [Entry(tail, NestedLines(m, n))];
            entries[0].Valid() && Stated(entries) == {OpName(m, "/" + tail)} &&
            SchemaOps(Document(header, entries, rest)) == {OpName(m, "/" + tail), OpName(n, "/" + tail)} &&
            (SchemaOps(Document(header, entries, rest)) == Stated(entries) <==> m == n)
  {
    var entries := [Entry(tail, NestedLines(m, n))];
    NestedDepths(m, n);
    NestedOps(tail, m, n);
    ParsePrinted(header, entries, rest);
    if m != n && OpName(m, "/" + tail) == OpName(n, "/" + tail) {
      NameSplits(m, tail, n, tail);
    }
  }

  lemma NestedOps(tail: string, m: string, n: string)
    requires MethodsOf(NestedLines(m, n), 1) == [m] && Spotted(NestedLines(m, n)) == [m, n]
    ensures Stated([Entry(tail, NestedLines(m, n))]) == {OpName(m, "/" + tail)}
    ensures Seen([Entry(tail, NestedLines(m, n))]) == {OpName(m, "/" + tail), OpName(n, "/" + tail)}
  {
    assert [Entry(tail, NestedLines(m, n))][1..] == [];
    assert BlockOps(tail, [m]) == {OpName(m, "/" + tail)};
    assert BlockOps(tail, [m, n]) == {OpName(m, "/" + tail), OpName(n, "/" + tail)};
  }

  /** For one, `/x` with `get: {`, `options: {`, `};`, `};` is said to offer OPTIONS. */
  lemma NestedOptions(header: string, tail: string, m: string, n: string, rest: string)
    requires MarkerFirst(header) && tail == "x" && m == "get" && n == "options"
    ensures var entries := [Entry(tail, NestedLines(m, n))];
            entries[0].Valid() &&
            "OPTIONS /x" in SchemaOps(Document(header, entries, rest)) && "OPTIONS /x" !in Stated(entries)
  {
    NoBraces(tail);
    NestedKeyRead(header, tail, m, n, rest);
    OptionsName(tail, m, n);
  }

  lemma OptionsName(tail: string, m: string, n: string)
    requires tail == "x" && m == "get" && n == "options"
    ensures OpName(n, "/" + tail) == "OPTIONS /x" && "OPTIONS /x" !in {OpName(m, "/" + tail)}
  {
    assert OpName(n, "/" + tail)[0] == 'O' && OpName(m, "/" + tail)[0] == 'G';
  }

  /* ---------- A brace in a comment ---------- */

  /** An operation, and a comment line in front of it. */
  function CommentedLines(m: string, word: string): seq<Line> {
    [Comment(Blanks(9) + word)] + ([Op(8, m, 1, "operations[", "];")] + [])
  }

  lemma {:induction false} CommentedDepths(m: string, word: string)
    requires m in METHODS && word != "" && word[0] == '*' && '\n' !in word
    ensures (forall l :: l in CommentedLines(m, word) ==> l.Valid()) &&
            DepthAfter(CommentedLines(m, word), 1) == Some(1)
    ensures MethodsOf(CommentedLines(m, word), 1) == [m]
    ensures Level(Interior(CommentedLines(m, word)), 1) == Level(Blanks(9) + word, 1)
    ensures Level(Blanks(9) + word, 1).None? ==> Spotted(UpToClose(CommentedLines(m, word), 1)) == []
  {
    var a, b := Comment(Blanks(9) + word), Op(8, m, 1, "operations[", "];");
    CommentWord(9, word);
    OpPlain(b, 1);
    NestedLine(b, [], 1);
    assert ([a] + ([b] + []))[1..] == [b] + [];
    InteriorLevel(a, [b] + [], 1);
    if Level(a.Text(), 1).Some? {
      var c := Level(a.Text(), 1).value;
      OpPlain(b, c);
      InteriorLevel(b, [], c);
    } else {
      OneSpotted(a);
    }
  }

  lemma {:induction false} OpPlain(l: Line, d: nat)
    requires l.Valid() && l.Op? && l.opener == "operations[" && '{' !in l.rest && '}' !in l.rest && d > 0
    ensures Level(l.Text(), d) == Some(d)
  {
    MethodLetters(l.name);
    OpSplits(l);
    var g := Blanks(l.gap);
    assert '{' !in g + l.opener && '}' !in g + l.opener;
    var front := Blanks(l.indent) + (l.name + (":" + (g + l.opener)));
    assert '{' !in front && '}' !in front;
    PlainLevel(front + l.rest, d);
  }

  /** The path object whose only operation has a comment line in front of it. */
  function Commented(tail: string, m: string, word: string): Entry { Entry(tail, CommentedLines(m, word)) }

  lemma CommentedStated(tail: string, m: string, word: string, after: seq<Entry>)
    requires m in METHODS && tail != "" && '"' !in tail && Balanced(tail)
    requires word != "" && word[0] == '*' && '\n' !in word
    ensures Commented(tail, m, word).Valid() && OpName(m, "/" + tail) in Stated([Commented(tail, m, word)] + after)
  {
    CommentedDepths(m, word);
    var e := Commented(tail, m, word);
    assert ([e] + after)[1..] == after && m in [m];
  }

  /** A comment line that leaves braces open, and a schema that states an operation gives none. */
  lemma OpenComment(header: string, tail: string, m: string, word: string, rest: string)
    requires MarkerFirst(header) && Balanced(rest) && m in METHODS && tail != "" && '"' !in tail && Balanced(tail)
    requires word != "" && word[0] == '*' && '\n' !in word
    requires Level(Blanks(9) + word, 1).Some? && Level(Blanks(9) + word, 1) != Some(1)
    ensures var entries := [Commented(tail, m, word)];
            OpName(m, "/" + tail) in Stated(entries) && SchemaOps(Document(header, entries, rest)) == {}
  {
    var entries := [Commented(tail, m, word)];
    CommentedStated(tail, m, word, []);
    CommentedDepths(m, word);
    assert entries + [] == entries && entries[0] in entries && !entries[0].Tight();
    ParseCommented(header, entries, rest);
  }

  /** One opening brace in one comment loses everything. */
  lemma OpenBraceLosesAll(header: string, tail: string, m: string, word: string, rest: string)
    requires MarkerFirst(header) && Balanced(rest) && tail == "x" && m == "get" && word == "* {"
    ensures var entries := [Commented(tail, m, word)];
            entries[0].Valid() && "GET /x" in Stated(entries) && SchemaOps(Document(header, entries, rest)) == {}
  {
    NoBraces(tail);
    CommentedStated(tail, m, word, []);
    assert Blanks(9) + word == (Blanks(9) + "* ") + ("{" + "");
    OpensAt(Blanks(9) + "* ", "", 1);
    OpenComment(header, tail, m, word, rest);
    GetName(m, tail);
  }

  /** A comment line that closes more than is open: the operation behind it and all other paths are
      lost. */
  lemma {:induction false} SurplusComment(header: string, tail: string, m: string, word: string, after: seq<Entry>,
                                          rest: string)
    requires MarkerFirst(header) && (forall f :: f in after ==> f.Valid())
    requires m in METHODS && tail != "" && '"' !in tail && Balanced(tail)
    requires word != "" && word[0] == '*' && '\n' !in word
    requires Level(Blanks(9) + word, 1).None? && Level(Blanks(9) + word, 2) == Some(1)
    ensures SchemaOps(Document(header, [Commented(tail, m, word)] + after, rest)) == {}
  {
    var e := Commented(tail, m, word);
    CommentedStated(tail, m, word, after);
    CommentedDepths(m, word);
    SurplusEnds(e, m, word);
    assert [] + ([e] + after) == [e] + after;
    ParseSurplus(header, [], e, after, rest);
  }

  /** One closing brace in one comment does that. */
  lemma SurplusBraceLosesRest(header: string, tail: string, m: string, word: string,
                                                 after: seq<Entry>, rest: string)
    requires MarkerFirst(header) && (forall f :: f in after ==> f.Valid())
    requires tail == "x" && m == "get" && word == "* }"
    ensures var entries := [Commented(tail, m, word)] + after;
            entries[0].Valid() && "GET /x" in Stated(entries) && SchemaOps(Document(header, entries, rest)) == {}
  {
    NoBraces(tail);
    CommentedStated(tail, m, word, after);
    CloseComment(word, 1);
    CloseComment(word, 2);
    SurplusComment(header, tail, m, word, after, rest);
    GetName(m, tail);
  }

  lemma CloseComment(word: string, d: nat)
    requires d > 0 && word == "* }"
    ensures Level(Blanks(9) + word, d) == if d == 1 then None else Some(d - 1)
  {
    assert Blanks(9) + word == (Blanks(9) + "* ") + ("}" + "");
    ClosesAt(Blanks(9) + "* ", "", d);
  }

  lemma GetName(m: string, tail: string)
    requires m == "get" && tail == "x"
    ensures OpName(m, "/" + tail) == "GET /x"
  {}

  lemma SurplusEnds(e: Entry, m: string, word: string)
    requires e.lines == CommentedLines(m, word) && Balanced(e.tail) && m in METHODS
    requires Level(Blanks(9) + word, 2) == Some(1)
    ensures Level(e.Text(), 1).None?
  {
    KeyJoin(e.tail, Interior(e.Inside()));
    KeyLevel(e.tail, 1);
    LevelConcat(Key(e.tail), Interior(e.Inside()), 1);
    assert Level(Interior(e.Inside()), 2).None? by { SurplusInside(e, m, word); }
  }

  lemma {:induction false} SurplusInside(e: Entry, m: string, word: string)
    requires e.lines == CommentedLines(m, word) && m in METHODS && Level(Blanks(9) + word, 2) == Some(1)
    ensures Level(Interior(e.Inside()), 2).None?
  {
    var a, b := Comment(Blanks(9) + word), Op(8, m, 1, "operations[", "];");
    assert e.Inside() == [a] + ([b] + ([CLOSING] + []));
    InteriorLevel(a, [b] + ([CLOSING] + []), 2);
    OpPlain(b, 1);
    InteriorLevel(b, [CLOSING] + [], 1);
    assert CLOSING.Text() == "    " + ("}" + ";");
    ClosesAt("    ", ";", 1);
    InteriorLevel(CLOSING, [], 1);
  }

  /* ---------- An object closed at once ---------- */

  /** The text in front of lines, entered anywhere but at its start, adds nothing. */
  lemma {:induction false} ScanLines(a: seq<Atom>, lines: seq<Line>, bol: bool)
    requires IsImpl(a) && forall l :: l in lines ==> l.Valid()
    ensures MethodsIn(a, Interior(lines), bol) == Spotted(lines)
  {
    if lines != [] {
      assert lines[0] in lines && forall l :: l in lines[1..] ==> l in lines;
      InteriorStarts(lines[1..], |Interior(lines[1..])|);
      ScanLine(a, lines[0], Interior(lines[1..]), bol);
      ScanLines(a, lines[1..], false);
    }
  }

  lemma BraceNoImpl(impl: seq<Atom>, block: string)
    requires IsImpl(impl) && block != "" && block[0] == '}'
    ensures HitOf(impl, 1, block).None?
  {
    if HitOf(impl, 1, block).Some? {
      ImplMeans(impl, block);
      RunLengthIs(Space, block, 0);
      NoMethodAt(block);
    }
  }

  /** The block of an object closed at once: its closing brace is not taken as such, so the methods
      of all lines behind it are found. */
  lemma {:induction false} EmptyBlock(impl: seq<Atom>, lines: seq<Line>)
    requires IsImpl(impl) && forall l :: l in lines ==> l.Valid()
    ensures MethodsIn(impl, PathBody("};" + Interior(lines)), true) == Spotted(lines)
  {
    var block := "};" + Interior(lines);
    assert block[0] == '}' && CloseAt(block, 1) == Some(0);
    BraceNoImpl(impl, block);
    PassOver(impl, block, true);
    assert block[1..] == ";" + Interior(lines);
    InteriorStarts(lines, |Interior(lines)|);
    SkipLine(impl, ";", Interior(lines));
    ScanLines(impl, lines, false);
  }

  lemma EmptyParts(key: seq<Atom>, tail: string, lines: seq<Line>)
    requires IsKey(key) && tail != "" && '"' !in tail && forall l :: l in lines ==> l.Valid()
    ensures Parts(key, Key(tail) + ("};" + Interior(lines))).1 == [(tail, "};" + Interior(lines))]
  {
    var inside := "};" + Interior(lines);
    var s := "\n    \"/" + (tail + ("\": {" + inside));
    KeyJoin(tail, inside);
    KeyHere(key, tail, inside);
    assert s[7..7 + |tail|] == tail && s[11 + |tail|..] == inside;
    assert Interior(lines) + "" == Interior(lines);
    PartsInterior(key, lines, "");
    forall k | 0 <= k < |"};"| ensures HitOf(key, 3, "};"[k..] + Interior(lines)).None? {
      var z := "};"[k..] + Interior(lines);
      assert z[0] == "};"[k];
      if HitOf(key, 3, z).Some? {
        KeyStarts(key, z);
      }
    }
    PartsCopies(key, "};", Interior(lines));
    assert "};" + Parts(key, Interior(lines)).0 == inside;
  }

  /** The interface of a path whose object is closed at once, with other lines behind it. */
  function EmptyDocument(header: string, tail: string, lines: seq<Line>, rest: string): string {
    header + MARKER + (" " + ("{" + (Key(tail) + ("};" + Interior(lines)) + "\n}" + rest)))
  }

  /** Every method of the other lines is taken for one of that path: it is read correctly exactly
      when there is none. */
  lemma EmptyObjectReadsOn(header: string, tail: string, lines: seq<Line>, rest: string)
    requires MarkerFirst(header) && tail != "" && '"' !in tail && Balanced(tail)
    requires (forall l :: l in lines ==> l.Valid()) && Balanced(Interior(lines))
    ensures SchemaOps(EmptyDocument(header, tail, lines, rest)) == BlockOps(tail, Spotted(lines))
    ensures SchemaOps(EmptyDocument(header, tail, lines, rest)) == {} <==> Spotted(lines) == []
  {
    var inside := "};" + Interior(lines);
    var s := Key(tail) + inside + "\n}" + rest;
    BodyAt(header, s);
    EmptyCloses(tail, lines, rest);
    EnclosedIs(s);
    EmptyOps(EmptyDocument(header, tail, lines, rest), PathAtoms(), MethodAtoms(), tail, lines);
    if Spotted(lines) != [] {
      assert OpName(Spotted(lines)[0], "/" + tail) in BlockOps(tail, Spotted(lines));
    }
  }

  lemma EmptyCloses(tail: string, lines: seq<Line>, rest: string)
    requires Balanced(tail) && Balanced(Interior(lines))
    ensures var body := Key(tail) + ("};" + Interior(lines)) + "\n}";
            CloseAt(body + rest, 1) == Some(|body| - 1) && (body + rest)[..|body|] == body
  {
    var front := Key(tail) + ("};" + Interior(lines));
    EmptyLevel(tail, Interior(lines));
    LevelConcat(front, "\n}", 1);
    assert "\n}"[1..] == "}" && CloseAt("\n}", 1) == Some(1);
    CloseLocal(front + "\n}", rest, 1);
  }

  lemma {:induction false} EmptyLevel(tail: string, inside: string)
    requires Balanced(tail) && Balanced(inside)
    ensures Level(Key(tail) + ("};" + inside), 1) == Some(1)
  {
    KeyLevel(tail, 1);
    ClosesAt("", ";", 2);
    assert "" + ("}" + ";") == "};";
    LevelConcat("};", inside, 2);
    LevelConcat(Key(tail), "};" + inside, 1);
  }

  lemma {:induction false} EmptyOps(text: string, key: seq<Atom>, impl: seq<Atom>, tail: string, lines: seq<Line>)
    requires key == PathAtoms() && impl == MethodAtoms() && tail != "" && '"' !in tail
    requires forall l :: l in lines ==> l.Valid()
    requires SchemaBody(text) == Some("{" + (Key(tail) + ("};" + Interior(lines)) + "\n}"))
    ensures SchemaOps(text) == BlockOps(tail, Spotted(lines))
  {
    EmptyEnd(key, impl, tail, lines);
    OpsOfBody(text, key, impl, Key(tail) + ("};" + Interior(lines)) + "\n}", BlockOps(tail, Spotted(lines)));
  }

  lemma EmptyEnd(key: seq<Atom>, impl: seq<Atom>, tail: string, lines: seq<Line>)
    requires IsKey(key) && IsImpl(impl) && tail != "" && '"' !in tail && forall l :: l in lines ==> l.Valid()
    ensures AllOps(impl, Parts(key, Key(tail) + ("};" + Interior(lines)) + "\n}").1) == BlockOps(tail, Spotted(lines))
  {
    EndValid();
    InteriorEnd(lines);
    EmptyText(tail, Interior(lines));
    EmptyYields(key, impl, tail, lines + [END]);
    SpottedEnd(lines);
  }

  lemma EmptyYields(key: seq<Atom>, impl: seq<Atom>, tail: string, lines: seq<Line>)
    requires IsKey(key) && IsImpl(impl) && tail != "" && '"' !in tail && forall l :: l in lines ==> l.Valid()
    ensures AllOps(impl, Parts(key, Key(tail) + ("};" + Interior(lines))).1) == BlockOps(tail, Spotted(lines))
  {
    EmptyParts(key, tail, lines);
    EmptyBlock(impl, lines);
    OneBlock(impl, tail, "};" + Interior(lines), []);
  }

  lemma EmptyText(tail: string, inside: string)
    ensures Key(tail) + ("};" + inside) + "\n}" == Key(tail) + ("};" + (inside + "\n}"))
  {
    Join("};", inside, "\n}");
    Join(Key(tail), "};" + inside, "\n}");
  }

  lemma {:induction false} SpottedEnd(lines: seq<Line>)
    ensures Spotted(lines + [END]) == Spotted(lines)
  {
    if lines == [] {
      OneSpotted(END);
      assert [] + [END] == [END];
    } else {
      assert (lines + [END])[0] == lines[0] && (lines + [END])[1..] == lines[1..] + [END];
      SpottedEnd(lines[1..]);
    }
  }
}
