/** Reading back a schema in the shape the generator prints: what is read of it, when that is what
    it states, and that what follows the interface does not matter. */
module SchemaRoundTrip {
  import opened Text
  import opened Regex
  import opened SchemaScan
  import opened SchemaDocument
  import opened SchemaPatterns
  import opened SchemaLines
  import opened SchemaCuts

  /* ---------- What is read ---------- */

  /** The methods found in a path object: of the lines up to the brace that the reader takes for
      its close, at whatever depth they stand. */
  function Found(e: Entry): seq<string> { Spotted(UpToClose(e.lines, 1)) }

  /** The operations read from depth `d` on: object by object, up to the one in which the reader
      takes a brace for the end of the interface. None if it takes none for that. */
  function Shown(entries: seq<Entry>, d: nat): Option<set<string>>
    requires d > 0
  {
    if entries == [] then (if d == 1 then Some({}) else None)
    else
      match Level(entries[0].Text(), d)
      case None => Some(BlockOps(entries[0].tail, Found(entries[0])))
      case Some(c) => Joined(BlockOps(entries[0].tail, Found(entries[0])), Shown(entries[1..], c))
  }

  function Joined(ops: set<string>, more: Option<set<string>>): Option<set<string>> {
    match more
    case None => None
    case Some(s) => Some(ops + s)
  }

  /* ---------- One path object ---------- */

  function Key(tail: string): string { "\n    \"/" + (tail + "\": {") }

  lemma KeyJoin(tail: string, x: string)
    ensures "\n    \"/" + (tail + ("\": {" + x)) == Key(tail) + x
  {
    assert tail + ("\": {" + x) == tail + "\": {" + x;
    Join("\n    \"/", tail + "\": {", x);
  }

  lemma KeyLevel(tail: string, d: nat)
    requires Balanced(tail) && d > 0
    ensures Level(Key(tail), d) == Some(d + 1)
  {
    NoBraces("\n    \"/");
    BalancedAt("\n    \"/", d);
    BalancedAt(tail, d);
    LevelConcat("\n    \"/", tail + "\": {", d);
    LevelConcat(tail, "\": {", d);
    OpensOne(d);
  }

  lemma OpensOne(d: nat)
    requires d > 0
    ensures Level("\": {", d) == Some(d + 1)
  {
    var s := "\": ";
    NoBraces(s);
    BalancedAt(s, d);
    LevelConcat(s, "{", d);
    assert "{"[1..] == "" && Level("{", d) == Level("{"[1..], d + 1);
    assert s + "{" == "\": {";
  }

  lemma InsideValid(e: Entry)
    requires e.Valid()
    ensures forall l :: l in e.Inside() ==> l.Valid()
  {
    var t := CLOSING.text;
    assert t[4] == '}';
    RunLengthIs(Space, t, 4);
    assert Word(t) == "};";
    NoMethodAt("};");
  }

  lemma NoMethodAt(word: string)
    requires word != "" && word[0] == '}'
    ensures !("\"/" <= word) && forall m :: m in METHODS ==> !(m + ":" <= word)
  {
    forall m | m in METHODS ensures !(m + ":" <= word) {
      MethodLetters(m);
      assert (m + ":")[0] == m[0];
    }
  }

  const END := Code("}")

  lemma EndValid()
    ensures END.Valid()
  {
    RunLengthIs(Space, "}", 0);
    assert Word("}") == "}";
    NoMethodAt("}");
  }

  lemma {:induction false} InteriorEnd(lines: seq<Line>)
    ensures Interior(lines + [END]) == Interior(lines) + "\n}"
    ensures Interior(lines + []) == Interior(lines)
  {
    assert lines + [] == lines;
    if lines == [] {
      assert [END][1..] == [] && "}" + "" == "}";
      assert [] + [END] == [END];
    } else {
      assert (lines + [END])[0] == lines[0] && (lines + [END])[1..] == lines[1..] + [END];
      InteriorEnd(lines[1..]);
      Join(lines[0].Text(), Interior(lines[1..]), "\n}");
    }
  }

  /** What may precede the first key in what is left of a body. */
  predicate NoMore(before: string) { before == "" || before == "\n}" }

  /** The block of a path object that is not cut off. */
  lemma {:induction false} WholeBlock(impl: seq<Atom>, e: Entry, before: string)
    requires IsImpl(impl) && e.Valid() && NoMore(before)
    ensures MethodsIn(impl, PathBody(Interior(e.Inside()) + before), true) == Found(e)
  {
    var extra := if before == "" then [] else [END];
    InsideValid(e);
    EndValid();
    InteriorEnd(e.Inside());
    assert Interior(e.Inside()) + "" == Interior(e.Inside());
    BlockFinds(impl, e.Inside() + extra);
    assert e.Inside() + extra == e.lines + ([CLOSING] + extra);
    ExtraSpots(e.lines, [CLOSING] + extra, 1);
  }

  /** The block of a path object in which the interface ends. */
  lemma {:induction false} CutBlockFinds(impl: seq<Atom>, e: Entry, d: nat)
    requires IsImpl(impl) && e.Valid() && d > 0 && CloseAt(Interior(e.Inside()), d).Some?
    ensures MethodsIn(impl, PathBody(Interior(CutLines(e.Inside(), d))), true) == Found(e)
  {
    InsideValid(e);
    CutText(e.Inside(), d);
    BlockFinds(impl, CutLines(e.Inside(), d));
    CutSpots(e.Inside(), 1, d);
    ExtraSpots(e.lines, [CLOSING], 1);
  }

  lemma OneBlock(impl: seq<Atom>, tail: string, block: string, more: seq<(string, string)>)
    requires |impl| > 1
    ensures AllOps(impl, [(tail, block)] + more) ==
            BlockOps(tail, MethodsIn(impl, PathBody(block), true)) + AllOps(impl, more)
  {
    assert ([(tail, block)] + more)[1..] == more;
  }

  /* ---------- All path objects ---------- */

  /** What stands behind the opening brace of the interface. */
  function Rest(entries: seq<Entry>, rest: string): string { Blocks(entries) + ("\n}" + rest) }

  lemma RestCons(entries: seq<Entry>, rest: string)
    requires entries != []
    ensures Rest(entries, rest) == entries[0].Text() + Rest(entries[1..], rest)
  {
    Join(entries[0].Text(), Blocks(entries[1..]), "\n}" + rest);
  }

  lemma RestHead(entries: seq<Entry>, rest: string)
    ensures |Rest(entries, rest)| >= 2 && Rest(entries, rest)[0] == '\n'
  {
    if entries != [] {
      RestCons(entries, rest);
    }
  }

  /** Splitting what is left of the body yields the operations shown. */
  ghost predicate Yields(key: seq<Atom>, impl: seq<Atom>, body: string, ops: set<string>)
    requires |key| > 3 && |impl| > 1
  {
    NoMore(Parts(key, body).0) && AllOps(impl, Parts(key, body).1) == ops
  }

  lemma YieldsEnd(key: seq<Atom>, impl: seq<Atom>)
    requires IsKey(key) && IsImpl(impl)
    ensures Yields(key, impl, "\n}", {})
  {
    RunLengthIs(Space, "}", 0);
    PartsQuiet(key, "}", "");
    assert "\n" + "}" + "" == "\n}";
  }

  lemma YieldsWhole(key: seq<Atom>, impl: seq<Atom>, e: Entry, y: string, ops: set<string>)
    requires IsKey(key) && IsImpl(impl) && e.Valid() && y != "" && y[0] == '\n' && Yields(key, impl, y, ops)
    ensures Yields(key, impl, e.Text() + y, BlockOps(e.tail, Found(e)) + ops)
  {
    var inside := Interior(e.Inside());
    InsideValid(e);
    PartsKey(key, e.tail, e.Inside(), y);
    KeyJoin(e.tail, inside + y);
    KeyJoin(e.tail, inside);
    Join(Key(e.tail), inside, y);
    WholeBlock(impl, e, Parts(key, y).0);
    OneBlock(impl, e.tail, inside + Parts(key, y).0, Parts(key, y).1);
  }

  lemma YieldsCut(key: seq<Atom>, impl: seq<Atom>, e: Entry, d: nat)
    requires IsKey(key) && IsImpl(impl) && e.Valid() && d > 0 && Level(e.Text(), d).None?
    ensures CloseAt(e.Text(), d).Some?
    ensures Yields(key, impl, e.Text()[..CloseAt(e.Text(), d).value + 1], BlockOps(e.tail, Found(e)))
  {
    CutPoint(e, d);
    CutYields(key, impl, e, d + 1);
  }

  lemma {:induction false} CutPoint(e: Entry, d: nat)
    requires e.Valid() && d > 0 && Level(e.Text(), d).None?
    ensures CloseAt(e.Text(), d).Some? && CloseAt(Interior(e.Inside()), d + 1).Some?
    ensures e.Text()[..CloseAt(e.Text(), d).value + 1] == Key(e.tail) + Interior(CutLines(e.Inside(), d + 1))
  {
    var k, inside := Key(e.tail), Interior(e.Inside());
    IsClosed(e.Text(), d);
    KeyJoin(e.tail, inside);
    KeyLevel(e.tail, d);
    LevelConcat(k, inside, d);
    var n := CloseAt(inside, d + 1).value;
    InsideValid(e);
    CutText(e.Inside(), d + 1);
    TakeBoth(k, inside, n + 1);
  }

  lemma {:induction false} CutYields(key: seq<Atom>, impl: seq<Atom>, e: Entry, d: nat)
    requires IsKey(key) && IsImpl(impl) && e.Valid() && d > 0 && CloseAt(Interior(e.Inside()), d).Some?
    ensures Yields(key, impl, Key(e.tail) + Interior(CutLines(e.Inside(), d)), BlockOps(e.tail, Found(e)))
  {
    var cut := CutLines(e.Inside(), d);
    InsideValid(e);
    CutText(e.Inside(), d);
    PartsKey(key, e.tail, cut, "");
    assert Interior(cut) + "" == Interior(cut);
    KeyJoin(e.tail, Interior(cut));
    CutBlockFinds(impl, e, d);
    OneBlock(impl, e.tail, Interior(cut), []);
  }

  /** What the brace loop encloses of `s` from depth `d` on yields these operations. */
  ghost predicate Covers(key: seq<Atom>, impl: seq<Atom>, s: string, d: nat, ops: set<string>)
    requires |key| > 3 && |impl| > 1 && d > 0
  {
    CloseAt(s, d).Some? && CloseAt(s, d).value > 0 && Yields(key, impl, s[..CloseAt(s, d).value + 1], ops)
  }

  lemma CoversCut(key: seq<Atom>, impl: seq<Atom>, e: Entry, more: string, d: nat)
    requires IsKey(key) && IsImpl(impl) && e.Valid() && d > 0 && Level(e.Text(), d).None?
    ensures Covers(key, impl, e.Text() + more, d, BlockOps(e.tail, Found(e)))
  {
    YieldsCut(key, impl, e, d);
    CloseLocal(e.Text(), more, d);
    TakeFront(e.Text(), more, CloseAt(e.Text(), d).value + 1);
    assert e.Text()[0] == '\n';
  }

  lemma CoversWhole(key: seq<Atom>, impl: seq<Atom>, e: Entry, more: string, d: nat,
                                       ops: set<string>)
    requires IsKey(key) && IsImpl(impl) && e.Valid() && d > 0 && Level(e.Text(), d).Some?
    requires more != "" && more[0] == '\n' && Covers(key, impl, more, Level(e.Text(), d).value, ops)
    ensures Covers(key, impl, e.Text() + more, d, BlockOps(e.tail, Found(e)) + ops)
  {
    var c := Level(e.Text(), d).value;
    var n := CloseAt(more, c).value;
    YieldsWhole(key, impl, e, more[..n + 1], ops);
    CoversBehind(key, impl, e.Text(), more, n, c, d, BlockOps(e.tail, Found(e)) + ops);
  }

  lemma {:induction false} CoversBehind(key: seq<Atom>, impl: seq<Atom>, t: string, more: string, n: nat, c: nat,
                                        d: nat, ops: set<string>)
    requires |key| > 3 && |impl| > 1 && c > 0 && d > 0 && Level(t, d) == Some(c) && CloseAt(more, c) == Some(n)
    requires n < |more| && Yields(key, impl, t + more[..n + 1], ops) && n > 0
    ensures Covers(key, impl, t + more, d, ops)
  {
    LevelConcat(t, more, d);
    TakeBoth(t, more, n + 1);
    CoversIs(key, impl, t + more, |t| + n, d, ops);
  }

  lemma CoversIs(key: seq<Atom>, impl: seq<Atom>, s: string, n: nat, d: nat, ops: set<string>)
    requires |key| > 3 && |impl| > 1 && d > 0 && CloseAt(s, d) == Some(n) && 0 < n < |s|
    requires Yields(key, impl, s[..n + 1], ops)
    ensures Covers(key, impl, s, d, ops)
  {}

  /** The body that the brace loop encloses yields the operations shown. */
  lemma {:induction false} BodyYields(key: seq<Atom>, impl: seq<Atom>, entries: seq<Entry>, rest: string, d: nat)
    requires IsKey(key) && IsImpl(impl) && d > 0 && (forall e :: e in entries ==> e.Valid()) && Shown(entries, d).Some?
    ensures Covers(key, impl, Rest(entries, rest), d, Shown(entries, d).value)
    decreases |entries|
  {
    if entries == [] {
      LastBrace(rest);
      YieldsEnd(key, impl);
    } else {
      var e, more := entries[0], Rest(entries[1..], rest);
      assert e in entries;
      RestCons(entries, rest);
      match Level(e.Text(), d)
      case None => CoversCut(key, impl, e, more, d);
      case Some(c) =>
        BodyYields(key, impl, entries[1..], rest, c);
        RestHead(entries[1..], rest);
        CoversWhole(key, impl, e, more, d, Shown(entries[1..], c).value);
    }
  }

  lemma LastBrace(rest: string)
    ensures var s := Rest([], rest); CloseAt(s, 1) == Some(1) && s[..2] == "\n}"
  {
    var s := Rest([], rest);
    assert s == "\n}" + rest;
    assert s[1..][0] == '}';
  }

  lemma TakeFront(a: string, b: string, n: nat)
    requires n <= |a|
    ensures (a + b)[..n] == a[..n]
  {}

  lemma TakeBoth(a: string, b: string, n: nat)
    requires n <= |b|
    ensures (a + b)[..|a| + n] == a + b[..n]
  {}

  /** If none is shown, and what follows balances, the brace loop finds no end. */
  lemma {:induction false} NeverEnds(entries: seq<Entry>, rest: string, d: nat)
    requires d > 0 && Shown(entries, d).None? && Balanced(rest)
    ensures CloseAt(Rest(entries, rest), d).None?
    decreases |entries|
  {
    if entries == [] {
      BalancedAt(rest, d - 1);
      assert Rest(entries, rest) == "\n" + ("}" + rest);
      assert ("\n" + ("}" + rest))[1..] == "}" + rest && ("}" + rest)[1..] == rest;
      NotClosed(rest, d - 1);
    } else {
      RestCons(entries, rest);
      LevelConcat(entries[0].Text(), Rest(entries[1..], rest), d);
      NeverEnds(entries[1..], rest, Level(entries[0].Text(), d).value);
    }
  }

  /* ---------- The whole file ---------- */

  /** The marker does not occur before the interface. */
  ghost predicate MarkerFirst(header: string) {
    Find(header + MARKER, MARKER) == Some(|header|)
  }

  lemma FindMarker(header: string, more: string)
    requires MarkerFirst(header)
    ensures Find(header + MARKER + more, MARKER) == Some(|header|)
  {
    FindLocal(header + MARKER, MARKER, more);
  }

  lemma {:induction false} FindBrace(front: string, more: string)
    requires '{' !in front
    ensures Find(front + ("{" + more), "{") == Some(|front|)
  {
    var s := front + ("{" + more);
    assert s[|front|..|front| + 1] == "{";
    assert OccursAt(s, "{", |front|);
    forall i: nat | i < |front| ensures !OccursAt(s, "{", i) {
      assert s[i..i + 1][0] == front[i];
      assert front[i] in front;
    }
  }

  /** The first brace behind the marker opens the body. */
  lemma BodyAt(header: string, more: string)
    requires MarkerFirst(header)
    ensures SchemaBody(header + MARKER + (" " + ("{" + more))) == Some(Enclosed("{" + more))
  {
    OpeningAt(header, more);
    DropThree(header, MARKER, " ", "{" + more);
  }

  lemma DropThree(a: string, b: string, c: string, x: string)
    ensures (a + b + (c + x))[|a| + |b| + |c|..] == x
  {}

  lemma OpeningAt(header: string, more: string)
    requires MarkerFirst(header)
    ensures OpeningBrace(header + MARKER + (" " + ("{" + more))) == Some(|header| + |MARKER| + 1)
  {
    FindMarker(header, " " + ("{" + more));
    MarkerPlain();
    FindBrace(MARKER + " ", more);
    assert (header + MARKER + (" " + ("{" + more)))[|header|..] == MARKER + " " + ("{" + more);
  }

  lemma MarkerPlain()
    ensures '{' !in MARKER + " "
  {}

  lemma DocumentText(header: string, entries: seq<Entry>, rest: string)
    ensures Document(header, entries, rest) == header + MARKER + (" " + ("{" + Rest(entries, rest)))
  {
    assert " " + ("{" + Rest(entries, rest)) == " {" + Rest(entries, rest);
    Join(header + MARKER, " {", Rest(entries, rest));
  }

  lemma BraceSkipped(key: seq<Atom>, y: string)
    requires IsKey(key)
    ensures Parts(key, "{" + y).1 == Parts(key, y).1
  {
    var s := "{" + y;
    assert s[1..] == y;
    if HitOf(key, 3, s).Some? {
      KeyStarts(key, s);
    }
  }

  lemma {:induction false} OpsOfBody(text: string, key: seq<Atom>, impl: seq<Atom>, y: string, ops: set<string>)
    requires key == PathAtoms() && impl == MethodAtoms() && SchemaBody(text) == Some("{" + y)
    requires AllOps(impl, Parts(key, y).1) == ops
    ensures SchemaOps(text) == ops
  {
    BraceSkipped(key, y);
  }

  /** What is read of a document, whatever its comments: the operations shown, or nothing if the
      interface is never closed. */
  lemma ReadDocument(header: string, entries: seq<Entry>, rest: string)
    requires MarkerFirst(header) && forall e :: e in entries ==> e.Valid()
    ensures Shown(entries, 1).Some? ==> SchemaOps(Document(header, entries, rest)) == Shown(entries, 1).value
    ensures Shown(entries, 1).None? && Balanced(rest) ==> SchemaOps(Document(header, entries, rest)) == {}
  {
    BodyOfDocument(header, entries, rest);
    if Shown(entries, 1).Some? {
      ReadEnded(Document(header, entries, rest), PathAtoms(), MethodAtoms(), entries, rest);
    } else if Balanced(rest) {
      NeverEnds(entries, rest, 1);
      ReadUnended(Document(header, entries, rest), Rest(entries, rest));
    }
  }

  lemma BodyOfDocument(header: string, entries: seq<Entry>, rest: string)
    requires MarkerFirst(header)
    ensures SchemaBody(Document(header, entries, rest)) == Some(Enclosed("{" + Rest(entries, rest)))
  {
    DocumentText(header, entries, rest);
    BodyAt(header, Rest(entries, rest));
  }

  lemma EnclosedIs(s: string)
    ensures Enclosed("{" + s) ==
            "{" + match CloseAt(s, 1)
                  case None => ""
                  case Some(n) => s[..n + 1]
  {
    assert ("{" + s)[1..] == s;
    if CloseAt(s, 1).Some? {
      var n := CloseAt(s, 1).value;
      assert ("{" + s)[..n + 2] == "{" + s[..n + 1];
    } else {
      assert ("{" + s)[..1] == "{" + "";
    }
  }

  lemma {:induction false} ReadEnded(text: string, key: seq<Atom>, impl: seq<Atom>, entries: seq<Entry>, rest: string)
    requires key == PathAtoms() && impl == MethodAtoms()
    requires (forall e :: e in entries ==> e.Valid()) && Shown(entries, 1).Some?
    requires SchemaBody(text) == Some(Enclosed("{" + Rest(entries, rest)))
    ensures SchemaOps(text) == Shown(entries, 1).value
  {
    var s := Rest(entries, rest);
    EnclosedIs(s);
    TheAtoms();
    BodyYields(key, impl, entries, rest, 1);
    OpsOfBody(text, key, impl, s[..CloseAt(s, 1).value + 1], Shown(entries, 1).value);
  }

  lemma TheAtoms()
    ensures IsKey(PathAtoms()) && IsImpl(MethodAtoms())
  {}

  lemma ReadUnended(text: string, s: string)
    requires SchemaBody(text) == Some(Enclosed("{" + s)) && CloseAt(s, 1).None?
    ensures SchemaOps(text) == {}
  {
    EnclosedIs(s);
    OpsOfBody(text, PathAtoms(), MethodAtoms(), "", {});
  }

  /** An interface that is never closed gives no operations at all. */
  lemma UnclosedIsEmpty(text: string)
    requires OpeningBrace(text).Some? && !Closed(text)
    ensures SchemaOps(text) == {}
  {
    var s := text[OpeningBrace(text).value..];
    assert s == "{" + s[1..];
    ReadUnended(text, s[1..]);
  }

  /** A text in which no brace follows the name of the interface gives none either. */
  lemma NoInterfaceIsEmpty(text: string)
    requires forall i: nat :: OccursAt(text, MARKER, i) ==> '{' !in text[i..]
    ensures SchemaOps(text) == {}
  {
    if Find(text, MARKER).Some? {
      NoBraceFound(text[Find(text, MARKER).value..]);
    }
  }

  lemma NoBraceFound(s: string)
    requires '{' !in s
    ensures Find(s, "{").None?
  {
    forall i: nat ensures !OccursAt(s, "{", i) {
      if i < |s| {
        assert s[i..i + 1][0] == s[i] && s[i] in s;
      }
    }
  }

  /* ---------- What follows the interface ---------- */

  lemma OccursLocal(s: string, key: string, more: string, i: nat)
    requires i + |key| <= |s|
    ensures OccursAt(s + more, key, i) == OccursAt(s, key, i)
  {
    assert (s + more)[i..i + |key|] == s[i..i + |key|];
  }

  lemma FindLocal(s: string, key: string, more: string)
    requires Find(s, key).Some?
    ensures Find(s + more, key) == Find(s, key)
  {
    forall i: nat | i <= Find(s, key).value ensures OccursAt(s + more, key, i) == OccursAt(s, key, i) {
      OccursLocal(s, key, more, i);
    }
  }

  /** The paths interface is opened and closed in this text. */
  ghost predicate Closed(text: string) {
    var brace := OpeningBrace(text);
    brace.Some? && CloseAt(text[brace.value..][1..], 1).Some?
  }

  lemma EnclosedLocal(s: string, more: string)
    requires s != "" && CloseAt(s[1..], 1).Some?
    ensures Enclosed(s + more) == Enclosed(s)
  {
    assert (s + more)[1..] == s[1..] + more;
    CloseLocal(s[1..], more, 1);
    var n := CloseAt(s[1..], 1).value;
    assert (s + more)[..n + 2] == s[..n + 2];
  }

  lemma OpeningLocal(text: string, suffix: string)
    requires OpeningBrace(text).Some?
    ensures OpeningBrace(text + suffix) == OpeningBrace(text)
  {
    var i, j := OpeningFinds(text);
    FindsLocal(text, MARKER, "{", suffix);
    OpeningIs(text + suffix, i, j);
  }

  lemma OpeningFinds(text: string) returns (i: nat, j: nat)
    requires OpeningBrace(text).Some?
    ensures Find(text, MARKER) == Some(i) && i <= |text| && Find(text[i..], "{") == Some(j)
    ensures OpeningBrace(text) == Some(i + j)
  {
    i := Find(text, MARKER).value;
    j := Find(text[i..], "{").value;
  }

  lemma {:induction false} OpeningIs(text: string, i: nat, j: nat)
    requires Find(text, MARKER) == Some(i) && i <= |text| && Find(text[i..], "{") == Some(j)
    ensures OpeningBrace(text) == Some(i + j)
  {}

  lemma {:induction false} FindsLocal(text: string, key: string, brace: string, suffix: string)
    requires Find(text, key).Some? && Find(text[Find(text, key).value..], brace).Some?
    ensures Find(text + suffix, key) == Find(text, key)
    ensures Find((text + suffix)[Find(text, key).value..], brace) == Find(text[Find(text, key).value..], brace)
  {
    FindLocal(text, key, suffix);
    FindAfter(text, Find(text, key).value, brace, suffix);
  }

  lemma FindAfter(s: string, start: nat, key: string, more: string)
    requires start <= |s| && Find(s[start..], key).Some?
    ensures Find((s + more)[start..], key) == Find(s[start..], key)
  {
    DropFront(s, more, start);
    FindLocal(s[start..], key, more);
  }

  lemma DropFront(a: string, b: string, n: nat)
    requires n <= |a|
    ensures (a + b)[n..] == a[n..] + b
  {}

  lemma BodyLocal(text: string, suffix: string)
    requires Closed(text)
    ensures SchemaBody(text + suffix) == SchemaBody(text)
  {
    OpeningLocal(text, suffix);
    var brace := OpeningBrace(text).value;
    DropFront(text, suffix, brace);
    EnclosedLocal(text[brace..], suffix);
  }

  /** Text after the brace that closes the interface has no influence. */
  lemma SuffixIrrelevant(text: string, suffix: string)
    requires Closed(text)
    ensures SchemaOps(text + suffix) == SchemaOps(text)
  {
    BodyLocal(text, suffix);
  }
}
