/** The canonical version: the first `version = "..."` line of pyproject.toml. */
module PyprojectField {
  import opened Text
  import opened Regex

  /** `^version\s*=\s*"([^"]+)"` without the leading `^`. */
  function Opening(): seq<Atom> { [Lit("version"), Run(Space, 0), Lit("="), Run(Space, 0), Lit("\"")] }
  function Closing(): seq<Atom> { [Run(NotQuote, 1), Lit("\"")] }
  function FieldAtoms(): seq<Atom> { Opening() + Closing() }

  lemma PlainField()
    ensures Plain(Opening()) && Plain(Closing()) && Plain(FieldAtoms())
  {
    forall k: nat | k < |FieldAtoms()| ensures PlainAt(FieldAtoms(), k) {}
    forall k: nat | k < |Opening()| ensures PlainAt(Opening(), k) {}
    forall k: nat | k < |Closing()| ensures PlainAt(Closing(), k) {}
  }

  /** A field at the head of a text: its value is at `start..end`, the closing quote follows. */
  datatype Field = Field(start: nat, end: nat)

  function FieldAt(s: string): (r: Option<Field>)
    ensures r.Some? ==> 0 < r.value.start < r.value.end < |s|
  {
    match Match(FieldAtoms(), s)
    case None => None
    case Some(w) =>
      FieldWidths(s, w);
      Some(Field(Sum(w[..5]), Sum(w[..6])))
  }

  /** A field is an opening followed by a nonempty value that ends at the next quote. */
  lemma {:induction false} FieldWidths(s: string, w: seq<nat>)
    requires Match(FieldAtoms(), s) == Some(w)
    ensures |w| == 7 && 0 < Sum(w[..5]) < Sum(w[..6]) < |s|
    ensures GreedyFits(Opening(), s, w[..5]) && Sum(w[..6]) == Sum(w[..5]) + RunLength(NotQuote, s[Sum(w[..5])..])
  {
    PlainField();
    PlainMatch(FieldAtoms(), s, w);
    var u, x := w[..5], w[5..];
    assert w == u + x && w[..6] == u + x[..1];
    GreedyConcat(Opening(), Closing(), s, u, x);
    SumConcat(u, x[..1]);
    ClosingFits(s[Sum(u)..], x);
    OpeningStart(s, u);
  }

  /** A nonempty value up to the next quote. */
  lemma ClosingFits(t: string, x: seq<nat>)
    ensures GreedyFits(Closing(), t, x) <==>
            |x| == 2 && x[0] == RunLength(NotQuote, t) && x[1] == 1 && 0 < x[0] < |t|
    ensures |x| == 2 ==> Sum(x[..1]) == x[0]
  {
    if |x| == 2 && x[0] == RunLength(NotQuote, t) {
      var r, y := t[x[0]..], x[1..];
      assert Closing()[1..] == [Lit("\"")];
      assert GreedyFits([Lit("\"")], r, y) <==> y[0] <= |r| && r[..y[0]] == "\"";
      if x[0] < |t| {
        assert r[..1] == "\"";
      }
    }
  }

  lemma OpeningStart(s: string, u: seq<nat>)
    requires GreedyFits(Opening(), s, u)
    ensures u[0] == 7 <= Sum(u) && s[..7] == "version"
  {
    assert s[..u[0]] == "version";
  }

  lemma FieldBuild(s: string, u: seq<nat>)
    requires GreedyFits(Opening(), s, u) && Sum(u) <= |s|
    requires var t := s[Sum(u)..]; 0 < RunLength(NotQuote, t) < |t|
    ensures FieldAt(s) == Some(Field(Sum(u), Sum(u) + RunLength(NotQuote, s[Sum(u)..])))
  {
    var x := [RunLength(NotQuote, s[Sum(u)..]), 1];
    assert Match(FieldAtoms(), s) == Some(u + x) by {
      ClosingFits(s[Sum(u)..], x);
      GreedyConcat(Opening(), Closing(), s, u, x);
      PlainField();
      PlainMatch(FieldAtoms(), s, u + x);
    }
    FieldEnds(u, x);
  }

  lemma {:induction false} FieldEnds(u: seq<nat>, x: seq<nat>)
    requires |u| == 5 && |x| == 2
    ensures Sum((u + x)[..5]) == Sum(u) && Sum((u + x)[..6]) == Sum(u) + x[0]
  {
    assert (u + x)[..5] == u && (u + x)[..6] == u + x[..1];
    SumConcat(u, x[..1]);
    assert x[..1][1..] == [];
  }

  /* ---------- Reading and replacing the first field ---------- */

  /** `search`: the value of the first field. `bol` says that `s` begins at the start of a line. */
  function ReadVersion(s: string, bol: bool): Option<string> {
    if s == "" then None
    else if bol && FieldAt(s).Some? then Some(s[FieldAt(s).value.start..FieldAt(s).value.end])
    else ReadVersion(s[1..], s[0] == '\n')
  }

  function FieldText(v: string): string { "version = \"" + v + "\"" }

  function AfterField(s: string): string
    requires FieldAt(s).Some?
  {
    s[FieldAt(s).value.end + 1..]
  }

  /** `sub` with count 1: the first field replaced by the text `x`. */
  function SetField(s: string, bol: bool, x: string): string {
    if s == "" then ""
    else if bol && FieldAt(s).Some? then x + AfterField(s)
    else [s[0]] + SetField(s[1..], s[0] == '\n', x)
  }

  function SetVersion(s: string, bol: bool, v: string): string { SetField(s, bol, FieldText(v)) }

  predicate IsValue(v: string) { v != "" && '"' !in v }

  /** The text written is itself a field with the new value. */
  lemma FieldTextIsField(v: string, rest: string)
    requires IsValue(v)
    ensures FieldAt(FieldText(v) + rest) == Some(Field(11, 11 + |v|))
  {
    var t := FieldText(v) + rest;
    var u := [7, 1, 1, 1, 1];
    assert Sum(u) == 11;
    OpeningOfField(v + "\"" + rest);
    assert t == "version = \"" + (v + "\"" + rest);
    RunLengthIs(NotQuote, t[11..], |v|);
    FieldBuild(t, u);
  }

  lemma {:induction false} OpeningOfField(rest: string)
    ensures GreedyFits(Opening(), "version = \"" + rest, [7, 1, 1, 1, 1])
  {
    var t := "version = \"" + rest;
    var o := Opening();
    assert t[..7] == "version";
    assert t[7..][0] == ' ' && t[7..][1] == '=';
    assert t[7..][1..] == t[8..] && t[8..][..1] == "=" && t[8..][1..] == t[9..];
    assert t[9..][0] == ' ' && t[9..][1] == '"' && t[9..][1..] == t[10..] && t[10..][..1] == "\"";
    RunLengthIs(Space, t[7..], 1);
    RunLengthIs(Space, t[9..], 1);
    assert GreedyFits(o[4..], t[10..], [1]);
    assert o[3..][1..] == o[4..] && [1, 1][1..] == [1];
    assert GreedyFits(o[3..], t[9..], [1, 1]);
    assert o[2..][1..] == o[3..] && [1, 1, 1][1..] == [1, 1];
    assert GreedyFits(o[2..], t[8..], [1, 1, 1]);
    assert o[1..][1..] == o[2..] && [1, 1, 1, 1][1..] == [1, 1, 1];
    assert GreedyFits(o[1..], t[7..], [1, 1, 1, 1]);
    assert [7, 1, 1, 1, 1][1..] == [1, 1, 1, 1];
  }

  /* ---------- The new text is read back ---------- */

  /** The position of the first field, or |s| if there is none. */
  function FirstField(s: string, bol: bool): (m: nat)
    ensures m <= |s|
    ensures m < |s| ==> FieldAt(s[m..]).Some? && (if m == 0 then bol else s[m - 1] == '\n')
    ensures m < |s| <==> ReadVersion(s, bol).Some?
  {
    if s == "" || (bol && FieldAt(s).Some?) then assert s[0..] == s; 0
    else
      var m := FirstField(s[1..], s[0] == '\n');
      assert s[1..][m..] == s[m + 1..];
      m + 1
  }

  lemma CopyOne(s: string, k: nat, t: string, x: string, y: string)
    requires k < |s| && t == s[1..][..k] + x + y
    ensures [s[0]] + t == s[..k + 1] + x + y
  {
    assert s[..k + 1] == [s[0]] + s[1..][..k];
    Regroup([s[0]], s[1..][..k], x, y);
  }

  /** A character in front of the first field is copied. */
  lemma SetStep(s: string, bol: bool, x: string)
    requires s != "" && !(bol && FieldAt(s).Some?)
    ensures SetField(s, bol, x) == [s[0]] + SetField(s[1..], s[0] == '\n', x)
    ensures FirstField(s, bol) == FirstField(s[1..], s[0] == '\n') + 1
    ensures ReadVersion(s, bol) == ReadVersion(s[1..], s[0] == '\n')
  {}

  lemma {:induction false} FieldCopied(s: string, bol: bool, x: string)
    requires ReadVersion(s, bol).Some?
    ensures FirstField(s, bol) < |s|
    ensures SetField(s, bol, x) == s[..FirstField(s, bol)] + x + AfterField(s[FirstField(s, bol)..])
    decreases |s|
  {
    if bol && FieldAt(s).Some? {
      assert s[0..] == s && s[..0] + x == x;
    } else {
      var r, b := s[1..], s[0] == '\n';
      var k := FirstField(r, b);
      SetStep(s, bol, x);
      FieldCopied(r, b, x);
      assert r[k..] == s[k + 1..];
      CopyOne(s, k, SetField(r, b, x), x, AfterField(s[k + 1..]));
    }
  }

  lemma SetCopies(s: string, bol: bool, v: string)
    requires ReadVersion(s, bol).Some?
    ensures var m := FirstField(s, bol);
            m < |s| && SetVersion(s, bol, v) == s[..m] + FieldText(v) + AfterField(s[m..])
  {
    FieldCopied(s, bol, FieldText(v));
  }

  /** A line starting with `version` cannot begin inside an opening. */
  lemma OpeningAvoids(t: string, u: seq<nat>, m: nat)
    requires GreedyFits(Opening(), t, u) && 0 < m < |t| && t[m] == 'v' && t[m - 1] == '\n'
    ensures Sum(u) <= m
  {
    OpeningStart(t, u);
    var rest, x := t[7..], u[1..];
    GreedyIsFit(Opening()[1..], rest, x);
    FitExcludes(Opening()[1..], rest, x, 'v');
    forall i | 0 <= i < 7 ensures t[i] != '\n' {
      assert t[i] == t[..7][i];
    }
    forall i | 7 <= i < Sum(u) ensures t[i] != 'v' {
      assert t[i] == rest[i - 7];
    }
  }

  /** The opening of a field at the head of `t`, if a line starting with `version` follows. */
  lemma OpeningBefore(t: string, m: nat) returns (u: seq<nat>)
    requires FieldAt(t).Some? && 0 < m < |t| && t[m] == 'v' && t[m - 1] == '\n'
    ensures GreedyFits(Opening(), t, u) && Sum(u) <= m && 0 < RunLength(NotQuote, t[Sum(u)..])
  {
    var w := Match(FieldAtoms(), t).value;
    FieldWidths(t, w);
    u := w[..5];
    OpeningAvoids(t, u, m);
  }

  lemma OpeningShared(s: string, t: string, u: seq<nat>, m: nat)
    requires GreedyFits(Opening(), t, u) && Sum(u) <= m <= |s| && m <= |t| && t[..m] == s[..m]
    ensures GreedyFits(Opening(), s, u)
  {
    PlainField();
    assert t[..Sum(u)] == t[..m][..Sum(u)] == s[..m][..Sum(u)] == s[..Sum(u)];
    assert Opening()[4].OneOf?;
    GreedyLocal(Opening(), t, s, u);
  }

  /** No field begins in front of the first one after its value has been replaced: an opening
      that reaches up to the new text reached up to the old one, which ends in a quote too. */
  lemma NoEarlierField(s: string, t: string, m: nat)
    requires 0 < m < |s| && FieldAt(s).None? && FieldAt(s[m..]).Some? && s[m - 1] == '\n'
    requires m < |t| && t[..m] == s[..m] && t[m] == 'v'
    ensures FieldAt(t).None?
  {
    if FieldAt(t).Some? {
      assert t[m - 1] == t[..m][m - 1] == s[..m][m - 1];
      var u := OpeningBefore(t, m);
      OpeningShared(s, t, u, m);
      ValueEnds(s, t, Sum(u), m);
      FieldBuild(s, u);
    }
  }

  /** The value running from `r` in `t` also ends at a quote in `s`. */
  lemma ValueEnds(s: string, t: string, r: nat, m: nat)
    requires r <= m < |s| && m <= |t| && t[..m] == s[..m] && FieldAt(s[m..]).Some?
    requires 0 < RunLength(NotQuote, t[r..])
    ensures 0 < RunLength(NotQuote, s[r..]) < |s[r..]|
  {
    var w := Match(FieldAtoms(), s[m..]).value;
    FieldWidths(s[m..], w);
    OpeningStart(s[m..], w[..5]);
    var e := FieldAt(s[m..]).value.end;
    ClosingQuote(s[m..]);
    assert s[r..][m + e - r] == s[m..][e] == '"';
    if r == m {
      assert s[r..][0] == s[m..][..7][0];
    } else {
      assert s[r..][0] == s[..m][r] == t[..m][r] == t[r..][0];
    }
  }

  lemma ClosingQuote(s: string)
    requires FieldAt(s).Some?
    ensures s[FieldAt(s).value.end] == '"'
  {
    var w := Match(FieldAtoms(), s).value;
    FieldWidths(s, w);
    var r := Sum(w[..5]);
    assert s[r..][RunLength(NotQuote, s[r..])] == s[Sum(w[..6])];
  }

  /** After the first field has been set, reading finds the new value at the same place. */
  lemma {:induction false} ReadAfterSet(s: string, bol: bool, v: string)
    requires ReadVersion(s, bol).Some? && IsValue(v)
    ensures ReadVersion(SetVersion(s, bol, v), bol) == Some(v)
    decreases |s|
  {
    var t := SetVersion(s, bol, v);
    if bol && FieldAt(s).Some? {
      var rest := AfterField(s);
      FieldTextIsField(v, rest);
      assert t == "version = \"" + v + ("\"" + rest);
    } else {
      SetSkips(s, bol, v);
      ReadAfterSet(s[1..], s[0] == '\n', v);
    }
  }

  lemma HeadAfter(a: string, b: string, c: string)
    requires b != ""
    ensures (a + b + c)[..|a|] == a && (a + b + c)[|a|] == b[0]
  {}

  /** Setting the field behind the head leaves the head without a field. */
  lemma SetSkips(s: string, bol: bool, v: string)
    requires s != "" && ReadVersion(s, bol).Some? && !(bol && FieldAt(s).Some?)
    ensures var t := SetVersion(s, bol, v);
            t != "" && t[0] == s[0] && t[1..] == SetVersion(s[1..], s[0] == '\n', v) && !(bol && FieldAt(t).Some?)
  {
    var t := SetVersion(s, bol, v);
    if bol {
      var m := FirstField(s, bol);
      SetCopies(s, bol, v);
      HeadAfter(s[..m], FieldText(v), AfterField(s[m..]));
      NoEarlierField(s, t, m);
    }
  }

  /** The last value set wins. */
  lemma {:induction false} LastSetWins(s: string, bol: bool, v: string, w: string)
    requires ReadVersion(s, bol).Some? && IsValue(v)
    ensures SetVersion(SetVersion(s, bol, v), bol, w) == SetVersion(s, bol, w)
    decreases |s|
  {
    var t := SetVersion(s, bol, v);
    if bol && FieldAt(s).Some? {
      var rest := AfterField(s);
      FieldTextIsField(v, rest);
      assert t[12 + |v|..] == rest;
    } else {
      SetSkips(s, bol, v);
      LastSetWins(s[1..], s[0] == '\n', v, w);
    }
  }
}
