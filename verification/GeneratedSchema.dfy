/** The shape openapi-typescript gives the committed schema, as a family of documents that the
    round trip covers. */
module GeneratedSchema {
  import opened Text
  import opened Regex
  import opened SchemaScan
  import opened SchemaDocument
  import opened SchemaPatterns
  import opened SchemaLines
  import opened SchemaCuts

  /** The comment on an operation: none, on one line, or a block. */
  datatype Remark = NoRemark | OneLine(text: string) | Block(lines: seq<string>)

  /** A method of a path: implemented, with its operation id and comment, or a `never` stub. */
  datatype Slot = Implemented(name: string, id: string, remark: Remark) | Stub(name: string)

  datatype PathSpec = PathSpec(tail: string, slots: seq<Slot>)

  const NAMES := METHODS + ["trace"]

  /** The lines of a block; an empty one is a bare star. */
  function StarLines(lines: seq<string>): seq<Line> {
    if lines == [] then []
    else [Comment(Blanks(9) + ("*" + (if lines[0] == "" then "" else " " + lines[0])))] + StarLines(lines[1..])
  }

  function RemarkLines(r: Remark): seq<Line> {
    match r
    case NoRemark => []
    case OneLine(text) => [Comment(Blanks(8) + ("/** " + text + " */"))]
    case Block(lines) => [Comment(Blanks(8) + "/**")] + StarLines(lines) + [Comment(Blanks(9) + "*/")]
  }

  lemma {:induction false} StarTexts(lines: seq<string>)
    ensures |StarLines(lines)| == |lines|
    ensures forall i :: 0 <= i < |lines| ==>
              StarLines(lines)[i].Text() == "         *" + if lines[i] == "" then "" else " " + lines[i]
  {
    if lines != [] {
      StarTexts(lines[1..]);
      assert Blanks(9) == "         ";
      var x := if lines[0] == "" then "" else " " + lines[0];
      assert Blanks(9) + ("*" + x) == "         *" + x;
    }
  }

  /** The lines of a comment: one with both its marks, or one with the opening mark, one with a star for
      each line of text, and one with the closing mark. */
  lemma {:induction false} RemarkTexts(r: Remark)
    ensures r == NoRemark ==> RemarkLines(r) == []
    ensures r.OneLine? ==> |RemarkLines(r)| == 1 && RemarkLines(r)[0].Text() == "        /** " + r.text + " */"
    ensures r.Block? ==>
              var n := |r.lines|;
              |RemarkLines(r)| == n + 2 && RemarkLines(r)[0].Text() == "        /**" &&
              RemarkLines(r)[n + 1].Text() == "         */" &&
              forall i :: 0 <= i < n ==>
                RemarkLines(r)[i + 1].Text() == "         *" + if r.lines[i] == "" then "" else " " + r.lines[i]
  {
    assert Blanks(8) == "        " && Blanks(9) == "         ";
    match r
    case NoRemark =>
    case OneLine(text) => assert Blanks(8) + ("/** " + text + " */") == "        /** " + text + " */";
    case Block(lines) =>
      StarTexts(lines);
      BlockTexts(Comment(Blanks(8) + "/**"), StarLines(lines), Comment(Blanks(9) + "*/"));
      assert Blanks(8) + "/**" == "        /**" && Blanks(9) + "*/" == "         */";
  }

  lemma BlockTexts(a: Line, stars: seq<Line>, b: Line)
    ensures var all := [a] + stars + [b];
            |all| == |stars| + 2 && all[0] == a && all[|stars| + 1] == b &&
            forall i :: 0 <= i < |stars| ==> all[i + 1] == stars[i]
  {}

  function OperationLine(name: string, id: string): Line {
    if name in METHODS then Op(8, name, 1, "operations[", "\"" + id + "\"];")
    else Code(Blanks(8) + (name + (": operations[\"" + id + "\"];")))
  }

  /** The lines of a slot: its comment, and its code. */
  function Remarks(s: Slot): seq<Line> { if s.Implemented? then RemarkLines(s.remark) else [] }

  function CodeLine(s: Slot): Line {
    match s
    case Stub(name) => Code(Blanks(8) + (name + "?: never;"))
    case Implemented(name, id, _) => OperationLine(name, id)
  }

  function SlotLines(s: Slot): seq<Line> { Remarks(s) + [CodeLine(s)] }

  function ParameterLines(): seq<Line> {
    [Code(Blanks(8) + OPEN), Property("query"), Property("header"), Property("path"), Property("cookie"),
     Code(Blanks(8) + "};")]
  }

  function Property(name: string): Line {
    Code(Blanks(12) + (name + "?: never;"))
  }

  function AllSlotLines(slots: seq<Slot>): seq<Line> {
    if slots == [] then [] else SlotLines(slots[0]) + AllSlotLines(slots[1..])
  }

  function Printed(p: PathSpec): Entry { Entry(p.tail, ParameterLines() + AllSlotLines(p.slots)) }

  /** Ids are plain, and comments have no line breaks; they may say anything else. */
  ghost predicate Printable(p: PathSpec) {
    p.tail != "" && '"' !in p.tail && Balanced(p.tail) && forall s :: s in p.slots ==> SlotPrintable(s)
  }

  ghost predicate SlotPrintable(s: Slot) {
    s.name in NAMES &&
    (s.Implemented? ==> '\n' !in s.id && '{' !in s.id && '}' !in s.id && RemarkPrintable(s.remark))
  }

  ghost predicate RemarkPrintable(r: Remark) {
    match r
    case NoRemark => true
    case OneLine(text) => '\n' !in text
    case Block(lines) => forall l :: l in lines ==> '\n' !in l
  }

  /* ---------- The lines are valid ---------- */

  /** A word that is no path key and no method with its colon. */
  ghost predicate Harmless(word: string) {
    word != "" && !IsSpace(word[0]) && '\n' !in word && !("\"/" <= word) &&
    forall m :: m in METHODS ==> !(m + ":" <= word)
  }

  lemma InertWord(n: nat, word: string)
    requires Harmless(word)
    ensures Code(Blanks(n) + word).Valid() && Word(Blanks(n) + word) == word
  {
    var t := Blanks(n) + word;
    RunLengthIs(Space, t, n);
    assert t[n..] == word;
  }

  lemma MethodPrefix(m: string, word: string)
    requires m in METHODS && m + ":" <= word
    ensures 0 < |m| < |word| && word[..|m|] == m && word[|m|] == ':'
    ensures forall i :: 0 <= i < |m| ==> 'a' <= word[i] <= 'z'
  {
    MethodLetters(m);
    assert word[..|m| + 1] == m + ":";
    assert word[|m|] == (m + ":")[|m|];
    assert forall i :: 0 <= i < |m| ==> word[i] == word[..|m|][i];
    assert word[..|m|] == (m + ":")[..|m|];
  }

  lemma HeadHarmless(word: string)
    requires word != "" && !IsSpace(word[0]) && '\n' !in word && word[0] != '"' && !('a' <= word[0] <= 'z')
    ensures Harmless(word)
  {
    forall m | m in METHODS ensures !(m + ":" <= word) {
      if m + ":" <= word { MethodPrefix(m, word); }
    }
  }

  /** A lower-case word ending in something other than a colon is no method with its colon. */
  lemma WordHarmless(word: string, n: nat)
    requires 0 < n < |word| && (forall i :: 0 <= i < n ==> 'a' <= word[i] <= 'z')
    requires !('a' <= word[n] <= 'z') && (word[n] == ':' ==> word[..n] !in METHODS) && '\n' !in word
    ensures Harmless(word)
  {
    forall m | m in METHODS ensures !(m + ":" <= word) {
      if m + ":" <= word { MethodPrefix(m, word); }
    }
  }

  lemma NameLetters(name: string)
    requires name in NAMES
    ensures name != "" && '\n' !in name && '{' !in name && '}' !in name &&
            forall i :: 0 <= i < |name| ==> 'a' <= name[i] <= 'z'
  {
    if name in METHODS {
      MethodLetters(name);
    }
  }

  lemma SixValid(a: Line, b: Line, c: Line, d: Line, e: Line, f: Line)
    requires a.Valid() && b.Valid() && c.Valid() && d.Valid() && e.Valid() && f.Valid()
    ensures forall l :: l in [a, b, c, d, e, f] ==> l.Valid()
  {}

  lemma PropertyValid(name: string)
    requires name in ["query", "header", "path", "cookie"]
    ensures Property(name).Valid()
  {
    var word := name + "?: never;";
    assert word[|name|] == '?' && forall i :: 0 <= i < |name| ==> word[i] == name[i];
    WordHarmless(word, |name|);
    InertWord(12, word);
  }

  lemma MethodsAreShort(m: string)
    requires m in METHODS
    ensures |m| <= 7
  {}

  const OPEN := "parameters: {"

  lemma OpenValid()
    ensures Code(Blanks(8) + OPEN).Valid()
  {
    if OPEN[..10] in METHODS {
      MethodsAreShort(OPEN[..10]);
    }
    WordHarmless(OPEN, 10);
    InertWord(8, OPEN);
  }

  lemma EndValid()
    ensures Code(Blanks(8) + "};").Valid()
  {
    HeadHarmless("};");
    InertWord(8, "};");
  }

  lemma ParametersValid()
    ensures forall l :: l in ParameterLines() ==> l.Valid()
  {
    OpenValid();
    EndValid();
    PropertyValid("query");
    PropertyValid("header");
    PropertyValid("path");
    PropertyValid("cookie");
    SixValid(Code(Blanks(8) + OPEN), Property("query"), Property("header"), Property("path"), Property("cookie"),
             Code(Blanks(8) + "};"));
  }

  lemma RemarkWord(n: nat, word: string)
    requires '\n' !in word && ("*" <= word || "/*" <= word)
    ensures Comment(Blanks(n) + word).Valid()
  {
    HeadHarmless(word);
    InertWord(n, word);
  }

  lemma {:induction false} StarsValid(lines: seq<string>)
    requires forall l :: l in lines ==> '\n' !in l
    ensures forall l :: l in StarLines(lines) ==> l.Valid() && l.Comment?
  {
    if lines != [] {
      assert lines[0] in lines && forall l :: l in lines[1..] ==> l in lines;
      var word := "*" + (if lines[0] == "" then "" else " " + lines[0]);
      assert word[..1] == "*";
      RemarkWord(9, word);
      StarsValid(lines[1..]);
    }
  }

  lemma RemarkValid(r: Remark)
    requires RemarkPrintable(r)
    ensures forall l :: l in RemarkLines(r) ==> l.Valid() && l.Comment?
  {
    match r
    case NoRemark =>
    case OneLine(text) =>
      var word := "/** " + text + " */";
      assert word[..2] == "/*";
      RemarkWord(8, word);
    case Block(lines) =>
      StarsValid(lines);
      assert "/**"[..2] == "/*" && "*/"[..1] == "*";
      RemarkWord(8, "/**");
      RemarkWord(9, "*/");
  }

  lemma SlotValid(s: Slot)
    requires SlotPrintable(s)
    ensures forall l :: l in SlotLines(s) ==> l.Valid()
    ensures forall l :: l in Remarks(s) ==> l.Comment?
  {
    match s
    case Stub(name) => StubValid(name);
    case Implemented(name, id, remark) =>
      RemarkValid(remark);
      OperationValid(name, id);
  }

  lemma StubValid(name: string)
    requires name in NAMES
    ensures Code(Blanks(8) + (name + "?: never;")).Valid()
  {
    NameLetters(name);
    var word := name + "?: never;";
    assert word[|name|] == '?' && forall i :: 0 <= i < |name| ==> word[i] == name[i];
    WordHarmless(word, |name|);
    InertWord(8, word);
  }

  lemma OperationValid(name: string, id: string)
    requires name in NAMES && '\n' !in id
    ensures OperationLine(name, id).Valid()
  {
    if name !in METHODS {
      NameLetters(name);
      var end := ": operations[\"" + id + "\"];";
      assert end[0] == ':';
      var word := name + end;
      assert word[|name|] == end[0] && word[..|name|] == name && forall i :: 0 <= i < |name| ==> word[i] == name[i];
      WordHarmless(word, |name|);
      InertWord(8, word);
    }
  }

  /* ---------- The braces balance ---------- */

  lemma {:induction false} InteriorConcat(a: seq<Line>, b: seq<Line>)
    ensures Interior(a + b) == Interior(a) + Interior(b)
    ensures Spotted(a + b) == Spotted(a) + Spotted(b)
  {
    if a == [] {
      assert a + b == b;
    } else {
      assert (a + b)[1..] == a[1..] + b;
      InteriorConcat(a[1..], b);
      Join(a[0].Text(), Interior(a[1..]), Interior(b));
      JoinMethods(a[0].Methods(), Spotted(a[1..]), Spotted(b));
    }
  }

  lemma PlainLine(n: nat, word: string)
    requires '{' !in word && '}' !in word
    ensures Balanced(Interior([Code(Blanks(n) + word)]))
  {
    var s := "\n" + (Blanks(n) + word);
    NoBraces(s);
    assert Interior([Code(Blanks(n) + word)]) == "\n" + (Blanks(n) + word + "");
    assert Blanks(n) + word + "" == Blanks(n) + word;
  }

  lemma BalancedLines(a: seq<Line>, b: seq<Line>)
    requires Balanced(Interior(a)) && Balanced(Interior(b))
    ensures Balanced(Interior(a + b))
  {
    InteriorConcat(a, b);
    BalancedConcat(Interior(a), Interior(b));
  }

  lemma MiddleBalanced(p: seq<Line>)
    requires |p| == 6
    requires Balanced(Interior([p[1]])) && Balanced(Interior([p[2]])) && Balanced(Interior([p[3]])) &&
             Balanced(Interior([p[4]]))
    ensures Balanced(Interior(p[1..5]))
  {
    BalancedLines([p[1]], [p[2]]);
    BalancedLines([p[1]] + [p[2]], [p[3]]);
    BalancedLines([p[1]] + [p[2]] + [p[3]], [p[4]]);
    assert p[1..5] == [p[1]] + [p[2]] + [p[3]] + [p[4]];
  }

  lemma LinesLevel(a: seq<Line>, b: seq<Line>, d: nat)
    requires d > 0
    ensures Level(Interior(a + b), d) ==
            match Level(Interior(a), d)
            case None => None
            case Some(c) => Level(Interior(b), c)
  {
    InteriorConcat(a, b);
    LevelJoin(Interior(a), Interior(b), d);
  }

  lemma FrameBalanced(p: seq<Line>)
    requires |p| == 6 && p[0] == Code(Blanks(8) + OPEN) && p[5] == Code(Blanks(8) + "};")
    requires Balanced(Interior(p[1..5]))
    ensures Balanced(Interior(p))
  {
    var middle := p[1..5];
    assert p == [p[0]] + (middle + ([p[5]] + []));
    InteriorLevel(p[0], middle + ([p[5]] + []), 1);
    OpenLevel();
    LinesLevel(middle, [p[5]] + [], 2);
    BalancedAt(Interior(middle), 2);
    InteriorLevel(p[5], [], 2);
    assert "};" == "}" + ";";
    ClosesAt(Blanks(8), ";", 2);
  }

  lemma OpenLevel()
    ensures Level(Blanks(8) + OPEN, 1) == Some(2)
  {
    var front := Blanks(8) + "parameters: ";
    assert Blanks(8) + OPEN == front + ("{" + "");
    OpensAt(front, "", 1);
  }

  lemma ParametersBalanced()
    ensures Balanced(Interior(ParameterLines()))
  {
    PlainLine(12, "query" + "?: never;");
    PlainLine(12, "header" + "?: never;");
    PlainLine(12, "path" + "?: never;");
    PlainLine(12, "cookie" + "?: never;");
    MiddleBalanced(ParameterLines());
    FrameBalanced(ParameterLines());
  }

  lemma CodeLineBalanced(s: Slot)
    requires SlotPrintable(s)
    ensures Balanced(CodeLine(s).Text())
  {
    NameLetters(s.name);
    match s
    case Stub(name) => NoBraces(Blanks(8) + (name + "?: never;"));
    case Implemented(name, id, _) =>
      IdPlain(id);
      if name in METHODS {
        OpBalanced(name, "\"" + id + "\"];");
      } else {
        assert name + (": operations[\"" + id + "\"];") == name + (": operations[" + ("\"" + id + "\"];"));
        NoBraces(Blanks(8) + (name + (": operations[" + ("\"" + id + "\"];"))));
      }
  }

  lemma IdPlain(id: string)
    requires '{' !in id && '}' !in id
    ensures '{' !in "\"" + id + "\"];" && '}' !in "\"" + id + "\"];"
  {}

  lemma OpBalanced(name: string, end: string)
    requires '{' !in name && '}' !in name && '{' !in end && '}' !in end
    ensures Balanced(Op(8, name, 1, "operations[", end).Text())
  {
    NoBraces(Op(8, name, 1, "operations[", end).Text());
  }

  /* ---------- The methods and the depth of the lines ---------- */

  /** The methods a path implements that the drift check knows about. */
  function Implements(slots: seq<Slot>): seq<string> {
    if slots == [] then []
    else (if slots[0].Implemented? && slots[0].name in METHODS then [slots[0].name] else []) + Implements(slots[1..])
  }

  /** Lines that lead back to their own depth, and what they state there. */
  ghost predicate Flat(lines: seq<Line>, methods: seq<string>) {
    DepthAfter(lines, 1) == Some(1) && MethodsOf(lines, 1) == methods && Spotted(lines) == methods
  }

  lemma {:induction false} DepthConcat(a: seq<Line>, b: seq<Line>, d: nat)
    requires d > 0 && DepthAfter(a, d).Some?
    ensures DepthAfter(a, d).value > 0
    ensures DepthAfter(a + b, d) == DepthAfter(b, DepthAfter(a, d).value)
    ensures MethodsOf(a + b, d) == MethodsOf(a, d) + MethodsOf(b, DepthAfter(a, d).value)
    decreases |a|
  {
    if a == [] {
      assert a + b == b;
    } else {
      var l, more := a[0], a[1..];
      var c := Behind(l, d).value;
      assert a == [l] + more && a + b == [l] + (more + b);
      FirstLine(l, more, d);
      FirstLine(l, more + b, d);
      DepthConcat(more, b, c);
      JoinMethods(if d == 1 then l.Methods() else [], MethodsOf(more, c), MethodsOf(b, DepthAfter(a, d).value));
    }
  }

  lemma FirstLine(l: Line, rest: seq<Line>, d: nat)
    requires d > 0 && Behind(l, d).Some?
    ensures DepthAfter([l] + rest, d) == DepthAfter(rest, Behind(l, d).value)
    ensures MethodsOf([l] + rest, d) ==
            (if d == 1 then l.Methods() else []) + MethodsOf(rest, Behind(l, d).value)
  {
    assert ([l] + rest)[1..] == rest;
  }

  lemma FlatConcat(a: seq<Line>, x: seq<string>, b: seq<Line>, y: seq<string>)
    requires Flat(a, x) && Flat(b, y)
    ensures Flat(a + b, x + y)
  {
    DepthConcat(a, b, 1);
    InteriorConcat(a, b);
  }

  lemma {:induction false} FlatComments(lines: seq<Line>)
    requires forall l :: l in lines ==> l.Comment?
    ensures Flat(lines, [])
  {
    if lines != [] {
      assert lines[0] in lines && forall l :: l in lines[1..] ==> l in lines;
      FlatComments(lines[1..]);
    }
  }

  /** Code in which no method is implemented. */
  lemma {:induction false} FlatCode(lines: seq<Line>, d: nat)
    requires d > 0 && forall l :: l in lines ==> l.Code?
    ensures MethodsOf(lines, d) == [] && Spotted(lines) == [] && DepthAfter(lines, d) == Level(Interior(lines), d)
    decreases |lines|
  {
    if lines != [] {
      var t, more := lines[0].Text(), Interior(lines[1..]);
      assert lines[0] in lines && forall l :: l in lines[1..] ==> l in lines;
      assert ("\n" + (t + more))[1..] == t + more;
      LevelJoin(t, more, d);
      FlatCode(lines[1..], if Level(t, d).Some? then Level(t, d).value else 1);
    }
  }

  lemma FlatSlot(s: Slot)
    requires SlotPrintable(s)
    ensures Flat(SlotLines(s), Implements([s]))
  {
    SlotValid(s);
    CodeLineBalanced(s);
    FlatComments(Remarks(s));
    OneSpotted(CodeLine(s));
    assert [CodeLine(s)][1..] == [] && [s][1..] == [];
    FlatConcat(Remarks(s), [], [CodeLine(s)], CodeLine(s).Methods());
    assert [] + CodeLine(s).Methods() == Implements([s]);
  }

  lemma {:induction false} SlotsPrinted(slots: seq<Slot>)
    requires forall s :: s in slots ==> SlotPrintable(s)
    ensures (forall l :: l in AllSlotLines(slots) ==> l.Valid()) && Flat(AllSlotLines(slots), Implements(slots))
  {
    if slots != [] {
      assert slots[0] in slots && forall s :: s in slots[1..] ==> s in slots;
      SlotValid(slots[0]);
      FlatSlot(slots[0]);
      SlotsPrinted(slots[1..]);
      FlatConcat(SlotLines(slots[0]), Implements([slots[0]]), AllSlotLines(slots[1..]), Implements(slots[1..]));
      ImplementsCons(slots);
    }
  }

  lemma ImplementsCons(slots: seq<Slot>)
    requires slots != []
    ensures Implements([slots[0]]) + Implements(slots[1..]) == Implements(slots)
  {
    assert [slots[0]][1..] == [];
    var first := if slots[0].Implemented? && slots[0].name in METHODS then [slots[0].name] else [];
    assert Implements([slots[0]]) == first + [] == first;
  }

  lemma FlatParameters()
    ensures Flat(ParameterLines(), [])
  {
    ParametersBalanced();
    FlatCode(ParameterLines(), 1);
  }

  /** The methods printed are those of the implemented slots, all of them at the path's own depth. */
  lemma PrintedMethods(p: PathSpec)
    requires Printable(p)
    ensures Flat(Printed(p).lines, Implements(p.slots))
  {
    FlatParameters();
    SlotsPrinted(p.slots);
    FlatConcat(ParameterLines(), [], AllSlotLines(p.slots), Implements(p.slots));
    assert [] + Implements(p.slots) == Implements(p.slots);
  }

  /** Whatever is printed in the generated shape is a valid entry. */
  lemma PrintedIsValid(p: PathSpec)
    requires Printable(p)
    ensures Printed(p).Valid()
  {
    ParametersValid();
    SlotsPrinted(p.slots);
    PrintedMethods(p);
  }

  /* ---------- The comments decide about the braces ---------- */

  /** All comments of a path. */
  function AllRemarks(slots: seq<Slot>): seq<Line> {
    if slots == [] then [] else Remarks(slots[0]) + AllRemarks(slots[1..])
  }

  lemma {:induction false} SlotsLevel(slots: seq<Slot>, d: nat)
    requires d > 0 && forall s :: s in slots ==> SlotPrintable(s)
    ensures Level(Interior(AllSlotLines(slots)), d) == Level(Interior(AllRemarks(slots)), d)
    decreases |slots|
  {
    if slots != [] {
      var s, more := slots[0], slots[1..];
      assert s in slots && forall x :: x in more ==> x in slots;
      LinesLevel(SlotLines(s), AllSlotLines(more), d);
      LinesLevel(Remarks(s), [CodeLine(s)], d);
      LinesLevel(Remarks(s), AllRemarks(more), d);
      if Level(Interior(Remarks(s)), d).Some? {
        var c := Level(Interior(Remarks(s)), d).value;
        CodeLineBalanced(s);
        OneInterior(CodeLine(s));
        assert ("\n" + CodeLine(s).Text())[1..] == CodeLine(s).Text();
        BalancedAt(CodeLine(s).Text(), c);
        SlotsLevel(more, c);
      }
    }
  }

  /** The braces of a printed path balance as those of its comments do. */
  lemma RemarksDecide(p: PathSpec)
    requires Printable(p)
    ensures Level(Interior(Printed(p).lines), 1) == Level(Interior(AllRemarks(p.slots)), 1)
  {
    ParametersBalanced();
    LinesLevel(ParameterLines(), AllSlotLines(p.slots), 1);
    SlotsLevel(p.slots, 1);
  }
}
