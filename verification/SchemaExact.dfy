/** When reading a schema gives what the schema states: the round trip and its exact conditions. */
module SchemaExact {
  import opened Text
  import opened SchemaScan
  import opened SchemaDocument
  import opened SchemaPatterns
  import opened SchemaLines
  import opened SchemaCuts
  import opened SchemaRoundTrip

  /* ---------- When it is what the document states ---------- */

  /** Everything that looks like an implemented method, at any depth. */
  function Seen(entries: seq<Entry>): set<string> {
    if entries == [] then {} else BlockOps(entries[0].tail, Spotted(entries[0].lines)) + Seen(entries[1..])
  }

  /** Every method found at any depth is one that the same path states. */
  ghost predicate Sheltered(entries: seq<Entry>) {
    forall e, m :: e in entries && m in Spotted(e.lines) ==> Offers(entries, e.tail, m)
  }

  ghost predicate Offers(entries: seq<Entry>, tail: string, m: string) {
    exists f :: f in entries && f.tail == tail && m in MethodsOf(f.lines, 1)
  }

  /** A name of an operation determines the method and the path. */
  lemma NameSplits(m: string, t: string, n: string, u: string)
    requires m in METHODS && n in METHODS && OpName(m, "/" + t) == OpName(n, "/" + u)
    ensures m == n && t == u
  {
    MethodLetters(m);
    MethodLetters(n);
    var s := OpName(m, "/" + t);
    assert forall i :: 0 <= i < |m| ==> s[i] == Upper(m)[i];
    assert forall i :: 0 <= i < |n| ==> s[i] == Upper(n)[i];
    assert s[|m|] == ' ' && s[|n|] == ' ';
    assert |m| == |n|;
    forall i | 0 <= i < |m| ensures m[i] == n[i] {
      assert Upper(m)[i] == Upper(n)[i];
    }
    assert t == s[|m| + 2..] && u == s[|n| + 2..];
  }

  lemma {:induction false} MethodsAreSpotted(lines: seq<Line>, d: nat)
    requires d > 0 && forall l :: l in lines ==> l.Valid()
    ensures forall m :: m in MethodsOf(lines, d) ==> m in Spotted(lines)
    ensures forall m :: m in Spotted(lines) ==> m in METHODS
  {
    if lines != [] {
      assert lines[0] in lines && forall l :: l in lines[1..] ==> l in lines;
      var c := if Behind(lines[0], d).Some? then Behind(lines[0], d).value else 1;
      MethodsAreSpotted(lines[1..], c);
    }
  }

  lemma {:induction false} StatedAre(entries: seq<Entry>, op: string)
    ensures op in Stated(entries) <==>
            exists e, m :: e in entries && m in MethodsOf(e.lines, 1) && op == OpName(m, "/" + e.tail)
  {
    if entries != [] {
      StatedAre(entries[1..], op);
      assert entries == [entries[0]] + entries[1..];
    }
  }

  lemma {:induction false} SeenAre(entries: seq<Entry>, op: string)
    ensures op in Seen(entries) <==>
            exists e, m :: e in entries && m in Spotted(e.lines) && op == OpName(m, "/" + e.tail)
  {
    if entries != [] {
      SeenAre(entries[1..], op);
      assert entries == [entries[0]] + entries[1..];
    }
  }

  /** What is seen is what is stated exactly when every nested name is sheltered. */
  lemma SeenIsStated(entries: seq<Entry>)
    requires forall e :: e in entries ==> e.Valid()
    ensures Stated(entries) <= Seen(entries)
    ensures Seen(entries) == Stated(entries) <==> Sheltered(entries)
  {
    forall op | op in Stated(entries) ensures op in Seen(entries) {
      StatedAre(entries, op);
      var e, m :| e in entries && m in MethodsOf(e.lines, 1) && op == OpName(m, "/" + e.tail);
      MethodsAreSpotted(e.lines, 1);
      SeenAre(entries, op);
    }
    forall e, m | e in entries && m in Spotted(e.lines)
      ensures OpName(m, "/" + e.tail) in Seen(entries)
      ensures OpName(m, "/" + e.tail) in Stated(entries) <==> Offers(entries, e.tail, m)
    {
      SeenAre(entries, OpName(m, "/" + e.tail));
      MethodsAreSpotted(e.lines, 1);
      NamedOnce(entries, e.tail, m);
    }
    if Sheltered(entries) {
      forall op | op in Seen(entries) ensures op in Stated(entries) {
        SeenAre(entries, op);
      }
    }
  }

  lemma NamedOnce(entries: seq<Entry>, tail: string, m: string)
    requires m in METHODS && forall e :: e in entries ==> e.Valid()
    ensures OpName(m, "/" + tail) in Stated(entries) <==> Offers(entries, tail, m)
  {
    StatedAre(entries, OpName(m, "/" + tail));
    forall f, n | f in entries && n in MethodsOf(f.lines, 1) && OpName(m, "/" + tail) == OpName(n, "/" + f.tail)
      ensures f.tail == tail && n == m
    {
      MethodsAreSpotted(f.lines, 1);
      NameSplits(m, tail, n, f.tail);
    }
  }

  /* ---------- Comments ---------- */

  lemma {:induction false} InteriorLast(lines: seq<Line>, l: Line)
    ensures Interior(lines + [l]) == Interior(lines) + ("\n" + l.Text())
  {
    if lines == [] {
      OneInterior(l);
      assert [] + [l] == [l];
    } else {
      assert (lines + [l])[0] == lines[0] && (lines + [l])[1..] == lines[1..] + [l];
      InteriorLast(lines[1..], l);
      Join(lines[0].Text(), Interior(lines[1..]), "\n" + l.Text());
    }
  }

  /** The depth behind a path object that does not close more than it opens. */
  lemma EntryLevel(e: Entry, d: nat)
    requires e.Valid() && d > 0 && Level(Interior(e.lines), 1).Some?
    ensures Level(e.Text(), d) == Some(d + Level(Interior(e.lines), 1).value - 1)
  {
    KeyJoin(e.tail, Interior(e.Inside()));
    KeyLevel(e.tail, d);
    LevelConcat(Key(e.tail), Interior(e.Inside()), d);
    InsideLevel(e, d);
  }

  lemma InsideLevel(e: Entry, d: nat)
    requires d > 0 && Level(Interior(e.lines), 1).Some?
    ensures Level(Interior(e.Inside()), d + 1) == Some(d + Level(Interior(e.lines), 1).value - 1)
  {
    InteriorLast(e.lines, CLOSING);
    assert "\n" + CLOSING.Text() == "\n    };";
    ClosesBehind(Interior(e.lines), d);
  }

  lemma ClosesBehind(s: string, d: nat)
    requires d > 0 && Level(s, 1).Some?
    ensures Level(s + "\n    };", d + 1) == Some(d + Level(s, 1).value - 1)
  {
    LevelDeeper(s, 1, d + 1);
    LevelConcat(s, "\n    };", d + 1);
    ClosesOne(Level(s, 1).value + d);
  }

  lemma ClosesOne(d: nat)
    requires d > 1
    ensures Level("\n    };", d) == Some(d - 1)
  {
    NoBraces("\n    ");
    BalancedAt("\n    ", d);
    LevelConcat("\n    ", "};", d);
    assert "};"[1..] == ";" && ";"[1..] == "";
    assert Level(";", d - 1) == Some(d - 1);
    assert "\n    " + "};" == "\n    };";
  }

  /** Without a surplus closing brace all lines are looked at. */
  lemma {:induction false} UpToEnd(lines: seq<Line>, d: nat)
    requires d > 0 && Level(Interior(lines), d).Some?
    ensures UpToClose(lines, d) == lines
    decreases |lines|
  {
    if lines != [] {
      assert lines == [lines[0]] + lines[1..];
      InteriorLevel(lines[0], lines[1..], d);
      UpToEnd(lines[1..], Level(lines[0].Text(), d).value);
    }
  }

  /** No path object closes more than it opens, comments included. */
  ghost predicate NoSurplus(entries: seq<Entry>) {
    forall e :: e in entries ==> Level(Interior(e.lines), 1).Some?
  }

  ghost predicate AllTight(entries: seq<Entry>) {
    forall e :: e in entries ==> e.Tight()
  }

  lemma TightCons(e: Entry, more: seq<Entry>)
    ensures AllTight([e] + more) <==> e.Tight() && AllTight(more)
  {
    assert e in [e] + more && forall f :: f in more ==> f in [e] + more;
  }

  lemma ShownCons(e: Entry, more: seq<Entry>, d: nat, c: nat)
    requires d > 0 && c > 0 && Level(e.Text(), d) == Some(c) && UpToClose(e.lines, 1) == e.lines
    ensures Shown([e] + more, d) == Joined(BlockOps(e.tail, Spotted(e.lines)), Shown(more, c))
    ensures Seen([e] + more) == BlockOps(e.tail, Spotted(e.lines)) + Seen(more)
  {
    assert ([e] + more)[1..] == more;
  }

  /** Without surplus, everything seen is shown if all is tight, and nothing otherwise. */
  lemma {:induction false} ShownIs(entries: seq<Entry>, d: nat)
    requires d > 0 && (forall e :: e in entries ==> e.Valid()) && NoSurplus(entries)
    ensures Shown(entries, d) == if d == 1 && AllTight(entries) then Some(Seen(entries)) else None
    decreases |entries|
  {
    if entries != [] {
      var e, more := entries[0], entries[1..];
      assert e in entries && entries == [e] + more && forall f :: f in more ==> f in entries;
      var c := EntryStep(e, d);
      ShownIs(more, c);
      TightCons(e, more);
      ShownCons(e, more, d, c);
    }
  }

  /** The depth behind a path object is 1 if it was 1 before and the object is tight. */
  lemma EntryStep(e: Entry, d: nat) returns (c: nat)
    requires e.Valid() && d > 0 && Level(Interior(e.lines), 1).Some?
    ensures c > 0 && Level(e.Text(), d) == Some(c) && (c == 1 <==> d == 1 && e.Tight())
    ensures UpToClose(e.lines, 1) == e.lines
  {
    EntryLevel(e, d);
    UpToEnd(e.lines, 1);
    c := d + Level(Interior(e.lines), 1).value - 1;
  }

  /** Round trip of a schema whose comments balance, whatever follows: everything that looks like a
      method is read, and that is what the schema states exactly when no nested key has the name of
      a method that its path does not implement. */
  lemma ParsePrinted(header: string, entries: seq<Entry>, rest: string)
    requires MarkerFirst(header) && (forall e :: e in entries ==> e.Valid()) && AllTight(entries)
    ensures SchemaOps(Document(header, entries, rest)) == Seen(entries)
    ensures SchemaOps(Document(header, entries, rest)) == Stated(entries) <==> Sheltered(entries)
  {
    ShownIs(entries, 1);
    ReadDocument(header, entries, rest);
    SeenIsStated(entries);
  }

  /** Round trip of a schema with any comments that close no more than was opened: a single brace
      too many loses everything. */
  lemma {:induction false} ParseCommented(header: string, entries: seq<Entry>, rest: string)
    requires MarkerFirst(header) && (forall e :: e in entries ==> e.Valid()) && NoSurplus(entries) && Balanced(rest)
    ensures SchemaOps(Document(header, entries, rest)) == if AllTight(entries) then Seen(entries) else {}
    ensures SchemaOps(Document(header, entries, rest)) == Stated(entries) <==>
            if AllTight(entries) then Sheltered(entries) else Stated(entries) == {}
  {
    ShownIs(entries, 1);
    ReadDocument(header, entries, rest);
    SeenIsStated(entries);
  }

  /* ---------- Any comments ---------- */

  /** The path objects looked at: those up to the one in which the interface seems to end. */
  function Looked(entries: seq<Entry>, d: nat): seq<Entry>
    requires d > 0
  {
    if entries == [] then []
    else
      match Level(entries[0].Text(), d)
      case None => [entries[0]]
      case Some(c) => [entries[0]] + Looked(entries[1..], c)
  }

  /** The method is found in a path object of that path that is looked at, in front of the brace
      taken for its close. */
  ghost predicate Reads(entries: seq<Entry>, tail: string, m: string) {
    exists e :: e in Looked(entries, 1) && e.tail == tail && m in Found(e)
  }

  /** Every method found is one that its path states, and every method stated is found, if not at
      its own place then in another object of the same path. */
  ghost predicate Faithful(entries: seq<Entry>) {
    (forall e, m :: e in Looked(entries, 1) && m in Found(e) ==> Offers(entries, e.tail, m)) &&
    forall e, m :: e in entries && m in MethodsOf(e.lines, 1) ==> Reads(entries, e.tail, m)
  }

  lemma {:induction false} ShownAre(entries: seq<Entry>, d: nat, op: string)
    requires d > 0 && Shown(entries, d).Some?
    ensures op in Shown(entries, d).value <==>
            exists e, m :: e in Looked(entries, d) && m in Found(e) && op == OpName(m, "/" + e.tail)
    decreases |entries|
  {
    if entries != [] {
      var e := entries[0];
      match Level(e.Text(), d)
      case None => assert Looked(entries, d) == [e];
      case Some(c) =>
        ShownAre(entries[1..], c, op);
        assert Looked(entries, d) == [e] + Looked(entries[1..], c);
    }
  }

  lemma {:induction false} LookedAre(entries: seq<Entry>, d: nat)
    requires d > 0
    ensures forall e :: e in Looked(entries, d) ==> e in entries
    decreases |entries|
  {
    if entries != [] && Level(entries[0].Text(), d).Some? {
      LookedAre(entries[1..], Level(entries[0].Text(), d).value);
    }
  }

  lemma FoundAreMethods(e: Entry)
    requires e.Valid()
    ensures forall m :: m in Found(e) ==> m in METHODS
  {
    UpToAre(e.lines, 1);
    MethodsAreSpotted(UpToClose(e.lines, 1), 1);
  }

  lemma {:induction false} UpToAre(lines: seq<Line>, d: nat)
    requires d > 0
    ensures forall l :: l in UpToClose(lines, d) ==> l in lines
    decreases |lines|
  {
    if lines != [] && Level(lines[0].Text(), d).Some? {
      UpToAre(lines[1..], Level(lines[0].Text(), d).value);
    }
  }

  /** An operation is shown exactly if its method is read for its path. */
  lemma ShownOnce(entries: seq<Entry>, tail: string, m: string)
    requires Shown(entries, 1).Some? && m in METHODS && forall e :: e in entries ==> e.Valid()
    ensures OpName(m, "/" + tail) in Shown(entries, 1).value <==> Reads(entries, tail, m)
  {
    ShownAre(entries, 1, OpName(m, "/" + tail));
    LookedAre(entries, 1);
    forall f, n | f in Looked(entries, 1) && n in Found(f) && OpName(m, "/" + tail) == OpName(n, "/" + f.tail)
      ensures f.tail == tail && n == m
    {
      FoundAreMethods(f);
      NameSplits(m, tail, n, f.tail);
    }
  }

  /** What is shown is what is stated exactly when reading is faithful. */
  lemma {:induction false} ShownIsStated(entries: seq<Entry>)
    requires Shown(entries, 1).Some? && forall e :: e in entries ==> e.Valid()
    ensures Shown(entries, 1).value == Stated(entries) <==> Faithful(entries)
  {
    LookedAre(entries, 1);
    forall e, m | e in Looked(entries, 1) && m in Found(e)
      ensures OpName(m, "/" + e.tail) in Shown(entries, 1).value
      ensures OpName(m, "/" + e.tail) in Stated(entries) <==> Offers(entries, e.tail, m)
    {
      ShownAre(entries, 1, OpName(m, "/" + e.tail));
      FoundAreMethods(e);
      NamedOnce(entries, e.tail, m);
    }
    forall e, m | e in entries && m in MethodsOf(e.lines, 1)
      ensures OpName(m, "/" + e.tail) in Stated(entries)
      ensures OpName(m, "/" + e.tail) in Shown(entries, 1).value <==> Reads(entries, e.tail, m)
    {
      StatedAre(entries, OpName(m, "/" + e.tail));
      MethodsAreSpotted(e.lines, 1);
      ShownOnce(entries, e.tail, m);
    }
    if Faithful(entries) {
      forall op ensures op in Shown(entries, 1).value <==> op in Stated(entries) {
        ShownAre(entries, 1, op);
        StatedAre(entries, op);
      }
    }
  }

  /** Round trip of a schema with any comments: it is read as what it states if and only if reading
      is faithful - or, if no brace is taken for the end of the interface, nothing is stated. */
  lemma ParseAny(header: string, entries: seq<Entry>, rest: string)
    requires MarkerFirst(header) && (forall e :: e in entries ==> e.Valid())
    requires Shown(entries, 1).Some? || Balanced(rest)
    ensures SchemaOps(Document(header, entries, rest)) == Stated(entries) <==>
            if Shown(entries, 1).Some? then Faithful(entries) else Stated(entries) == {}
  {
    ReadDocument(header, entries, rest);
    if Shown(entries, 1).Some? {
      ShownIsStated(entries);
    }
  }

  /** A surplus closing brace: if the reader takes a brace inside the object `e` for the end of the
      interface, nothing behind it counts, and of `e` only the lines up to the surplus brace; this
      is what is stated exactly when each method stated behind is also found in front. */
  lemma ParseSurplus(header: string, before: seq<Entry>, e: Entry, after: seq<Entry>, rest: string)
    requires MarkerFirst(header) && (forall f :: f in before + ([e] + after) ==> f.Valid())
    requires AllTight(before) && Level(e.Text(), 1).None?
    ensures SchemaOps(Document(header, before + ([e] + after), rest)) ==
            Seen(before) + BlockOps(e.tail, Spotted(UpToClose(e.lines, 1)))
    ensures Looked(before + ([e] + after), 1) == before + [e]
    ensures SchemaOps(Document(header, before + ([e] + after), rest)) == Stated(before + ([e] + after)) <==>
            Faithful(before + ([e] + after))
  {
    assert forall f :: f in before ==> f in before + ([e] + after);
    ShownBefore(before, e, after);
    ReadDocument(header, before + ([e] + after), rest);
    LookedBefore(before, e, after);
    ParseAny(header, before + ([e] + after), rest);
  }

  lemma {:induction false} LookedBefore(before: seq<Entry>, e: Entry, after: seq<Entry>)
    requires (forall f :: f in before ==> f.Valid()) && AllTight(before) && Level(e.Text(), 1).None?
    ensures Looked(before + ([e] + after), 1) == before + [e]
  {
    var all := before + ([e] + after);
    if before == [] {
      assert all == [e] + after;
    } else {
      assert all[0] == before[0] && all[1..] == before[1..] + ([e] + after);
      assert before[0] in before && before == [before[0]] + before[1..];
      EntryLevel(before[0], 1);
      LookedBefore(before[1..], e, after);
    }
  }

  lemma {:induction false} ShownBefore(before: seq<Entry>, e: Entry, after: seq<Entry>)
    requires (forall f :: f in before ==> f.Valid()) && AllTight(before) && Level(e.Text(), 1).None?
    ensures Shown(before + ([e] + after), 1) == Some(Seen(before) + BlockOps(e.tail, Found(e)))
  {
    var all := before + ([e] + after);
    if before == [] {
      assert all == [e] + after;
      assert Seen([]) + BlockOps(e.tail, Found(e)) == BlockOps(e.tail, Found(e));
    } else {
      assert all[0] == before[0] && all[1..] == before[1..] + ([e] + after);
      assert before[0] in before && before == [before[0]] + before[1..];
      EntryLevel(before[0], 1);
      UpToEnd(before[0].lines, 1);
      ShownBefore(before[1..], e, after);
      var first, last := BlockOps(before[0].tail, Spotted(before[0].lines)), BlockOps(e.tail, Found(e));
      assert first + (Seen(before[1..]) + last) == first + Seen(before[1..]) + last;
    }
  }
}
