/** The fragment of Python's `re` that the repository's version and schema patterns use:
    a pattern is a sequence of literal alternatives and greedy character-class runs,
    matched at the head of a string by backtracking. */
module Regex {
  import opened Text

  datatype Class = Digit | Space | NotQuote

  predicate InClass(cls: Class, c: char) {
    match cls
    case Digit => IsDigit(c)
    case Space => IsSpace(c)
    case NotQuote => c != '"'
  }

  /** `OneOf` is an alternation of literals tried in order; `Run` is `[cls]*` or `[cls]+`. */
  datatype Atom = OneOf(options: seq<string>) | Run(cls: Class, min: nat)

  function Lit(t: string): Atom { OneOf([t]) }

  /** Length of the longest prefix of `s` in the class. */
  function RunLength(cls: Class, s: string): (n: nat)
    ensures n <= |s|
    ensures forall i :: 0 <= i < n ==> InClass(cls, s[i])
    ensures n < |s| ==> !InClass(cls, s[n])
  {
    if s == "" || !InClass(cls, s[0]) then 0 else 1 + RunLength(cls, s[1..])
  }

  lemma {:induction false} RunLengthIs(cls: Class, s: string, n: nat)
    requires n <= |s|
    requires forall i :: 0 <= i < n ==> InClass(cls, s[i])
    requires n < |s| ==> !InClass(cls, s[n])
    ensures RunLength(cls, s) == n
  {}

  /* ---------- The matcher, as Python runs it ---------- */

  /** Matches all of `atoms` at the head of `s`; the result is the width of each atom.
      Alternatives are tried in order, runs from the longest down. */
  function Match(atoms: seq<Atom>, s: string): Option<seq<nat>>
    decreases |atoms|, 1, 0
  {
    if atoms == [] then Some([])
    else match atoms[0]
         case OneOf(options) => MatchOption(options, atoms[1..], s)
         case Run(cls, min) => MatchRun(RunLength(cls, s), min, atoms[1..], s)
  }

  function MatchOption(options: seq<string>, rest: seq<Atom>, s: string): Option<seq<nat>>
    decreases |rest| + 1, 0, |options|
  {
    if options == [] then None
    else if options[0] <= s && Match(rest, s[|options[0]|..]).Some? then
      Some([|options[0]|] + Match(rest, s[|options[0]|..]).value)
    else MatchOption(options[1..], rest, s)
  }

  function MatchRun(n: nat, min: nat, rest: seq<Atom>, s: string): Option<seq<nat>>
    requires n <= |s|
    decreases |rest| + 1, 0, n
  {
    if n < min then None
    else if Match(rest, s[n..]).Some? then Some([n] + Match(rest, s[n..]).value)
    else if n == 0 then None
    else MatchRun(n - 1, min, rest, s)
  }

  /** A match with a group at `start..end`; the match ends at `stop`. */
  datatype Hit = Hit(start: nat, end: nat, stop: nat)

  /* ---------- What a match means ---------- */

  function Sum(w: seq<nat>): nat {
    if w == [] then 0 else w[0] + Sum(w[1..])
  }

  predicate AtomFits(a: Atom, s: string, n: nat)
    requires n <= |s|
  {
    match a
    case OneOf(options) => s[..n] in options
    case Run(cls, min) => min <= n && forall i :: 0 <= i < n ==> InClass(cls, s[i])
  }

  /** The declarative meaning: `s` begins with consecutive pieces of the given widths,
      each of which the corresponding atom accepts. */
  ghost predicate Fits(atoms: seq<Atom>, s: string, w: seq<nat>) {
    |w| == |atoms| &&
    (atoms != [] ==> w[0] <= |s| && AtomFits(atoms[0], s, w[0]) && Fits(atoms[1..], s[w[0]..], w[1..]))
  }

  /** As `Fits`, with every run extended as far as it goes. */
  ghost predicate GreedyFits(atoms: seq<Atom>, s: string, w: seq<nat>) {
    |w| == |atoms| &&
    (atoms != [] ==>
       w[0] <= |s| && AtomFits(atoms[0], s, w[0]) &&
       (atoms[0].Run? ==> w[0] == RunLength(atoms[0].cls, s)) &&
       GreedyFits(atoms[1..], s[w[0]..], w[1..]))
  }

  lemma {:induction false} FitsLength(atoms: seq<Atom>, s: string, w: seq<nat>)
    requires Fits(atoms, s, w)
    ensures Sum(w) <= |s|
  {
    if atoms != [] {
      FitsLength(atoms[1..], s[w[0]..], w[1..]);
    }
  }

  /** The matcher only reports genuine matches. */
  lemma {:induction false} MatchSound(atoms: seq<Atom>, s: string)
    ensures Match(atoms, s).Some? ==> Fits(atoms, s, Match(atoms, s).value) && Sum(Match(atoms, s).value) <= |s|
    decreases |atoms|, 1, 0
  {
    if atoms != [] {
      assert [atoms[0]] + atoms[1..] == atoms;
      match atoms[0] {
        case OneOf(options) => MatchOptionSound(options, options, atoms[1..], s);
        case Run(cls, min) => MatchRunSound(cls, RunLength(cls, s), min, atoms[1..], s);
      }
      if Match(atoms, s).Some? { FitsLength(atoms, s, Match(atoms, s).value); }
    }
  }

  lemma {:induction false} MatchOptionSound(all: seq<string>, options: seq<string>, rest: seq<Atom>, s: string)
    requires forall o :: o in options ==> o in all
    ensures var r := MatchOption(options, rest, s);
            r.Some? ==> Fits([OneOf(all)] + rest, s, r.value)
    decreases |rest| + 1, 0, |options|
  {
    if options != [] {
      if options[0] <= s && Match(rest, s[|options[0]|..]).Some? {
        MatchSound(rest, s[|options[0]|..]);
        assert s[..|options[0]|] == options[0];
        assert ([OneOf(all)] + rest)[1..] == rest;
        var r := MatchOption(options, rest, s);
        assert r.value[1..] == Match(rest, s[|options[0]|..]).value;
      } else {
        MatchOptionSound(all, options[1..], rest, s);
      }
    }
  }

  lemma {:induction false} MatchRunSound(cls: Class, n: nat, min: nat, rest: seq<Atom>, s: string)
    requires n <= RunLength(cls, s)
    ensures var r := MatchRun(n, min, rest, s);
            r.Some? ==> Fits([Run(cls, min)] + rest, s, r.value)
    decreases |rest| + 1, 0, n
  {
    if min <= n {
      if Match(rest, s[n..]).Some? {
        MatchSound(rest, s[n..]);
        assert ([Run(cls, min)] + rest)[1..] == rest;
        var r := MatchRun(n, min, rest, s);
        assert r.value[1..] == Match(rest, s[n..]).value;
      } else if n > 0 {
        MatchRunSound(cls, n - 1, min, rest, s);
      }
    }
  }

  /** Backtracking misses nothing: if the pattern fits in any way, the matcher finds a match. */
  lemma {:induction false} MatchComplete(atoms: seq<Atom>, s: string, w: seq<nat>)
    requires Fits(atoms, s, w)
    ensures Match(atoms, s).Some?
    decreases |atoms|, 1, 0
  {
    if atoms != [] {
      MatchComplete(atoms[1..], s[w[0]..], w[1..]);
      match atoms[0]
      case OneOf(options) =>
        var k :| 0 <= k < |options| && options[k] == s[..w[0]];
        MatchOptionComplete(options, k, atoms[1..], s);
      case Run(cls, min) =>
        assert w[0] <= RunLength(cls, s);
        MatchRunComplete(RunLength(cls, s), w[0], min, atoms[1..], s);
    }
  }

  lemma {:induction false} MatchOptionComplete(options: seq<string>, k: nat, rest: seq<Atom>, s: string)
    requires k < |options| && options[k] <= s && Match(rest, s[|options[k]|..]).Some?
    ensures MatchOption(options, rest, s).Some?
  {
    if k > 0 {
      MatchOptionComplete(options[1..], k - 1, rest, s);
    }
  }

  lemma {:induction false} MatchRunComplete(n: nat, k: nat, min: nat, rest: seq<Atom>, s: string)
    requires min <= k <= n <= |s| && Match(rest, s[k..]).Some?
    ensures MatchRun(n, min, rest, s).Some?
  {
    if k < n {
      MatchRunComplete(n - 1, k, min, rest, s);
    }
  }

  /* ---------- Patterns with a single way to match ---------- */

  predicate PrefixFree(options: seq<string>) {
    forall i, j :: 0 <= i < |options| && 0 <= j < |options| && options[i] <= options[j] ==> options[i] == options[j]
  }

  /** Literals are nonempty and none starts another; a run is followed by a literal that
      cannot begin inside the run, or by nothing. */
  predicate Plain(atoms: seq<Atom>) {
    forall k :: 0 <= k < |atoms| ==> PlainAt(atoms, k)
  }

  predicate HeadsOutside(options: seq<string>, cls: Class) {
    forall k :: 0 <= k < |options| ==> options[k] != "" && !InClass(cls, options[k][0])
  }

  predicate PlainAt(atoms: seq<Atom>, k: nat)
    requires k < |atoms|
  {
    match atoms[k]
    case OneOf(options) => PrefixFree(options) && "" !in options
    case Run(cls, min) =>
      k + 1 < |atoms| ==>
        atoms[k + 1].OneOf? && HeadsOutside(atoms[k + 1].options, cls)
  }

  lemma PlainTail(atoms: seq<Atom>)
    requires Plain(atoms) && atoms != []
    ensures Plain(atoms[1..])
  {
    forall k: nat | k < |atoms[1..]| ensures PlainAt(atoms[1..], k) {
      assert PlainAt(atoms, k + 1);
      assert atoms[1..][k] == atoms[k + 1];
      if k + 1 < |atoms[1..]| {
        assert atoms[1..][k + 1] == atoms[(k + 1) + 1];
      }
    }
  }

  /** A plain pattern has at most one greedy fit. */
  lemma {:induction false} GreedyUnique(atoms: seq<Atom>, s: string, w: seq<nat>, u: seq<nat>)
    requires Plain(atoms) && GreedyFits(atoms, s, w) && GreedyFits(atoms, s, u)
    ensures w == u
  {
    if atoms != [] {
      assert PlainAt(atoms, 0);
      PlainTail(atoms);
      assert w[0] == u[0] by {
        if atoms[0].OneOf? {
          var x, y := s[..w[0]], s[..u[0]];
          assert x <= y || y <= x;
        }
      }
      GreedyUnique(atoms[1..], s[w[0]..], w[1..], u[1..]);
      assert w == [w[0]] + w[1..] && u == [u[0]] + u[1..];
    }
  }

  lemma {:induction false} GreedyIsFit(atoms: seq<Atom>, s: string, w: seq<nat>)
    requires GreedyFits(atoms, s, w)
    ensures Fits(atoms, s, w) && Sum(w) <= |s|
  {
    if atoms != [] {
      GreedyIsFit(atoms[1..], s[w[0]..], w[1..]);
    }
  }

  /** In a plain pattern the matcher's first choice at every run is the full run. */
  lemma {:induction false} MatchGreedy(atoms: seq<Atom>, s: string)
    requires Plain(atoms) && Match(atoms, s).Some?
    ensures GreedyFits(atoms, s, Match(atoms, s).value)
    decreases |atoms|
  {
    if atoms != [] {
      assert PlainAt(atoms, 0);
      PlainTail(atoms);
      MatchSound(atoms, s);
      var w := Match(atoms, s).value;
      match atoms[0] {
        case OneOf(options) => MatchOptionTail(options, atoms[1..], s);
        case Run(cls, min) =>
          MatchRunTail(RunLength(cls, s), min, atoms[1..], s);
          if |atoms| > 1 {
            // a shorter run would make the next literal begin with a character of the run
            assert AtomFits(atoms[1], s[w[0]..], w[1]);
            var o := s[w[0]..][..w[1]];
            assert o in atoms[0 + 1].options;
            assert o != "" && o[0] == s[w[0]];
          }
          assert w[0] == RunLength(cls, s);
      }
      assert Match(atoms[1..], s[w[0]..]) == Some(w[1..]);
      MatchGreedy(atoms[1..], s[w[0]..]);
    }
  }

  lemma {:induction false} MatchOptionTail(options: seq<string>, rest: seq<Atom>, s: string)
    requires MatchOption(options, rest, s).Some?
    ensures var w := MatchOption(options, rest, s).value;
            |w| > 0 && w[0] <= |s| && Match(rest, s[w[0]..]) == Some(w[1..])
  {
    if !(options[0] <= s && Match(rest, s[|options[0]|..]).Some?) {
      MatchOptionTail(options[1..], rest, s);
    }
  }

  lemma {:induction false} MatchRunTail(n: nat, min: nat, rest: seq<Atom>, s: string)
    requires n <= |s| && MatchRun(n, min, rest, s).Some?
    ensures var w := MatchRun(n, min, rest, s).value;
            |w| > 0 && w[0] <= n && Match(rest, s[w[0]..]) == Some(w[1..]) &&
            (Match(rest, s[n..]).Some? ==> w[0] == n)
  {
    if Match(rest, s[n..]).None? {
      MatchRunTail(n - 1, min, rest, s);
    }
  }

  /** For a plain pattern the backtracking matcher returns exactly the greedy fit. */
  lemma PlainMatch(atoms: seq<Atom>, s: string, w: seq<nat>)
    requires Plain(atoms)
    ensures Match(atoms, s) == Some(w) <==> GreedyFits(atoms, s, w)
  {
    if Match(atoms, s) == Some(w) {
      MatchGreedy(atoms, s);
    }
    if GreedyFits(atoms, s, w) {
      GreedyIsFit(atoms, s, w);
      MatchComplete(atoms, s, w);
      MatchGreedy(atoms, s);
      GreedyUnique(atoms, s, w, Match(atoms, s).value);
    }
  }

  /* ---------- Locality ---------- */

  /** A trailing run must not be able to grow into what follows. */
  predicate Stops(atoms: seq<Atom>, rest: string) {
    atoms != [] && atoms[|atoms| - 1].Run? && rest != "" ==> !InClass(atoms[|atoms| - 1].cls, rest[0])
  }

  /** A greedy fit depends only on the characters it covers and on the one that stops it. */
  lemma {:induction false} GreedyLocal(atoms: seq<Atom>, s: string, t: string, w: seq<nat>)
    requires Plain(atoms) && GreedyFits(atoms, s, w) && Sum(w) <= |s|
    requires s[..Sum(w)] <= t && Stops(atoms, t[Sum(w)..])
    ensures GreedyFits(atoms, t, w)
    decreases |atoms|
  {
    if atoms != [] {
      PlainTail(atoms);
      GreedyIsFit(atoms[1..], s[w[0]..], w[1..]);
      SharedHead(s, t, w[0], Sum(w[1..]));
      if atoms[0].Run? {
        RunAgain(atoms, s, t, w);
      }
      GreedyLocal(atoms[1..], s[w[0]..], t[w[0]..], w[1..]);
    }
  }

  /** Two texts with a common beginning of two parts. */
  lemma SharedHead(s: string, t: string, n: nat, m: nat)
    requires n + m <= |s| && s[..n + m] <= t
    ensures t[..n] == s[..n] && s[n..][..m] <= t[n..] && t[n..][m..] == t[n + m..]
  {
    assert t[..n + m] == s[..n + m];
    assert t[..n] == t[..n + m][..n];
    assert s[n..][..m] == s[..n + m][n..] && t[n..][..m] == t[..n + m][n..];
  }

  /** A leading run is as long in a text that agrees up to the end of the fit. */
  lemma {:induction false} RunAgain(atoms: seq<Atom>, s: string, t: string, w: seq<nat>)
    requires Plain(atoms) && GreedyFits(atoms, s, w) && Sum(w) <= |s|
    requires s[..Sum(w)] <= t && Stops(atoms, t[Sum(w)..]) && atoms != [] && atoms[0].Run?
    ensures RunLength(atoms[0].cls, t) == w[0]
  {
    assert t[..Sum(w)] == s[..Sum(w)];
    assert forall i :: 0 <= i < Sum(w) ==> t[i] == t[..Sum(w)][i] == s[i];
    if |atoms| > 1 {
      assert PlainAt(atoms, 0) && PlainAt(atoms, 1);
      assert w[1..][0] == w[1] && w[1] <= Sum(w[1..]);
      assert s[w[0]..][..w[1]] in atoms[1].options;
      assert t[w[0]] == s[w[0]..][..w[1]][0];
    } else {
      assert w[1..] == [];
    }
    RunLengthIs(atoms[0].cls, t, w[0]);
  }

  lemma {:induction false} SumConcat(u: seq<nat>, w: seq<nat>)
    ensures Sum(u + w) == Sum(u) + Sum(w)
  {
    if u == [] {
      assert u + w == w;
    } else {
      SumConcat(u[1..], w);
      assert (u + w)[1..] == u[1..] + w;
    }
  }

  /** Fitting a concatenation is fitting the first part and then the second where it ended. */
  lemma {:induction false} GreedyConcat(a: seq<Atom>, b: seq<Atom>, s: string, u: seq<nat>, w: seq<nat>)
    requires |u| == |a| && |w| == |b|
    ensures GreedyFits(a + b, s, u + w) <==>
            GreedyFits(a, s, u) && Sum(u) <= |s| && GreedyFits(b, s[Sum(u)..], w)
  {
    if a == [] {
      assert a + b == b && u + w == w && s[0..] == s;
    } else {
      assert (a + b)[1..] == a[1..] + b && (u + w)[1..] == u[1..] + w;
      if u[0] <= |s| {
        GreedyConcat(a[1..], b, s[u[0]..], u[1..], w);
        if Sum(u) <= |s| {
          assert s[u[0]..][Sum(u[1..])..] == s[Sum(u)..];
        }
      }
      if GreedyFits(a, s, u) {
        GreedyIsFit(a, s, u);
      }
    }
  }

  /* ---------- A pattern with a group: before, group, after ---------- */

  /** `a` fits at the head of `s` up to `i`, `b` from there to `j`, `c` from there to `k`. */
  ghost predicate Fits3(a: seq<Atom>, b: seq<Atom>, c: seq<Atom>, s: string,
                        u: seq<nat>, x: seq<nat>, y: seq<nat>) {
    Sum(u) + Sum(x) + Sum(y) <= |s| &&
    GreedyFits(a, s, u) && GreedyFits(b, s[Sum(u)..], x) && GreedyFits(c, s[Sum(u) + Sum(x)..], y)
  }

  lemma GroupParts(a: seq<Atom>, b: seq<Atom>, c: seq<Atom>, s: string,
                                      u: seq<nat>, x: seq<nat>, y: seq<nat>)
    requires |u| == |a| && |x| == |b| && |y| == |c|
    ensures Sum(u + x) == Sum(u) + Sum(x) && Sum(u + x + y) == Sum(u) + Sum(x) + Sum(y)
    ensures GreedyFits(a + b + c, s, u + x + y) <==> Fits3(a, b, c, s, u, x, y)
  {
    SumConcat(u, x);
    SumConcat(u + x, y);
    GreedyConcat(a + b, c, s, u + x, y);
    GreedyConcat(a, b, s, u, x);
    if GreedyFits(a + b + c, s, u + x + y) { GreedyIsFit(a + b + c, s, u + x + y); }
  }

  /** Rewriting the group keeps the rest of the match: `t` has the text `v` where `s` has the
      group, and agrees with `s` on what the other two parts cover. */
  lemma {:induction false} GroupReplace(a: seq<Atom>, b: seq<Atom>, c: seq<Atom>, s: string, t: string, v: string,
                                        u: seq<nat>, x: seq<nat>, y: seq<nat>, z: seq<nat>)
    requires Plain(a) && Plain(b) && Plain(c)
    requires a != [] && a[|a| - 1].OneOf? && (c != [] ==> c[0].OneOf?) && |c| <= 1
    requires Fits3(a, b, c, s, u, x, y) && GreedyFits(b, v, z) && Sum(z) == |v|
    requires var i, j := Sum(u), Sum(u) + Sum(x);
             s[..i] + v + s[j..j + Sum(y)] <= t
    requires Stops(b, t[Sum(u) + |v|..])
    ensures Fits3(a, b, c, t, u, z, y)
  {
    Slices(s[..Sum(u)], v, s[Sum(u) + Sum(x)..Sum(u) + Sum(x) + Sum(y)], t);
    PiecesFit(a, b, c, s, t, v, u, x, y, z);
  }

  /** The same, with the three pieces of `t` given one by one. */
  lemma {:induction false} PiecesFit(a: seq<Atom>, b: seq<Atom>, c: seq<Atom>, s: string, t: string, v: string,
                                     u: seq<nat>, x: seq<nat>, y: seq<nat>, z: seq<nat>)
    requires Plain(a) && Plain(b) && Plain(c)
    requires a != [] && a[|a| - 1].OneOf? && (c != [] ==> c[0].OneOf?) && |c| <= 1
    requires Fits3(a, b, c, s, u, x, y) && GreedyFits(b, v, z) && Sum(z) == |v|
    requires Sum(u) + |v| + Sum(y) <= |t| && s[..Sum(u)] <= t && v <= t[Sum(u)..]
    requires s[Sum(u) + Sum(x)..Sum(u) + Sum(x) + Sum(y)] <= t[Sum(u) + |v|..]
    requires t[Sum(u)..][|v|..] == t[Sum(u) + |v|..] && Stops(b, t[Sum(u) + |v|..])
    ensures Fits3(a, b, c, t, u, z, y)
  {
    assert GreedyFits(a, t, u) by { GreedyLocal(a, s, t, u); }
    assert GreedyFits(b, t[Sum(u)..], z) by { WholeFits(b, v, t[Sum(u)..], z); }
    assert GreedyFits(c, t[Sum(u) + |v|..], y) by { LastFits(c, s, Sum(u) + Sum(x), t[Sum(u) + |v|..], y); }
  }

  /** A fit of a whole text is a fit of what begins with it. */
  lemma {:induction false} WholeFits(b: seq<Atom>, v: string, t: string, z: seq<nat>)
    requires Plain(b) && GreedyFits(b, v, z) && Sum(z) == |v| && v <= t && Stops(b, t[|v|..])
    ensures GreedyFits(b, t, z)
  {
    assert v[..Sum(z)] == v;
    GreedyLocal(b, v, t, z);
  }

  /** A fit of at most one literal is kept where the same text stands. */
  lemma {:induction false} LastFits(c: seq<Atom>, s: string, j: nat, t: string, y: seq<nat>)
    requires Plain(c) && |c| <= 1 && (c != [] ==> c[0].OneOf?)
    requires j + Sum(y) <= |s| && GreedyFits(c, s[j..], y) && s[j..j + Sum(y)] <= t
    ensures GreedyFits(c, t, y)
  {
    assert s[j..][..Sum(y)] == s[j..j + Sum(y)];
    GreedyLocal(c, s[j..], t, y);
  }

  lemma Slices(x: string, y: string, z: string, t: string)
    requires x + y + z <= t
    ensures |x| + |y| + |z| <= |t| && x <= t && y <= t[|x|..] && z <= t[|x| + |y|..]
    ensures t[|x|..][|y|..] == t[|x| + |y|..] && t[|x| + |y|..][|z|..] == t[|x| + |y| + |z|..]
  {
    var xyz := x + y + z;
    assert t[..|xyz|] == xyz;
    assert t[..|x|] == xyz[..|x|];
    assert t[|x|..][..|y|] == xyz[|x|..|x| + |y|];
    assert t[|x| + |y|..][..|z|] == xyz[|x| + |y|..];
  }

  /** No character of a fit is one that every atom excludes. */
  predicate Excludes(a: Atom, c: char) {
    match a
    case OneOf(options) => forall o :: o in options ==> c !in o
    case Run(cls, _) => !InClass(cls, c)
  }

  lemma {:induction false} FitExcludes(atoms: seq<Atom>, s: string, w: seq<nat>, c: char)
    requires Fits(atoms, s, w) && Sum(w) <= |s|
    requires forall k :: 0 <= k < |atoms| ==> Excludes(atoms[k], c)
    ensures forall j :: 0 <= j < Sum(w) ==> s[j] != c
  {
    if atoms != [] {
      assert Excludes(atoms[0], c);
      FitsLength(atoms[1..], s[w[0]..], w[1..]);
      FitExcludes(atoms[1..], s[w[0]..], w[1..], c);
      forall j | 0 <= j < Sum(w) ensures s[j] != c {
        if j < w[0] {
          assert s[j] == s[..w[0]][j];
        } else {
          assert s[j] == s[w[0]..][j - w[0]];
        }
      }
    }
  }

  /* ---------- Pieces of a fit, by position ---------- */

  /** The piece that an atom of a fit accepts, in the whole text. */
  lemma {:induction false} PieceAt(a: seq<Atom>, s: string, w: seq<nat>, k: nat)
    requires Fits(a, s, w) && k < |a|
    ensures var i := Sum(w[..k]);
            i + w[k] <= |s| && AtomFits(a[k], s[i..], w[k]) && Sum(w[..k + 1]) == i + w[k]
    decreases k
  {
    if k == 0 {
      assert s[0..] == s && w[..0] == [] && w[..1] == [w[0]] + [];
      SumCons(w[0], []);
    } else {
      PieceAt(a[1..], s[w[0]..], w[1..], k - 1);
      assert w[..k] == [w[0]] + w[1..][..k - 1] && w[..k + 1] == [w[0]] + w[1..][..k];
      SumCons(w[0], w[1..][..k - 1]);
      SumCons(w[0], w[1..][..k]);
      assert s[w[0]..][Sum(w[1..][..k - 1])..] == s[Sum(w[..k])..];
    }
  }

  lemma {:induction false} LitAt(a: seq<Atom>, s: string, w: seq<nat>, k: nat, t: string)
    requires Fits(a, s, w) && k < |a| && a[k] == Lit(t)
    ensures Sum(w[..k + 1]) == Sum(w[..k]) + |t| <= |s| && s[Sum(w[..k])..Sum(w[..k + 1])] == t
  {
    PieceAt(a, s, w, k);
    assert s[Sum(w[..k])..][..w[k]] == t;
  }

  lemma {:induction false} RunAt(a: seq<Atom>, s: string, w: seq<nat>, k: nat)
    requires Fits(a, s, w) && k < |a| && a[k].Run?
    ensures Sum(w[..k]) + a[k].min <= Sum(w[..k + 1]) <= |s|
    ensures forall i :: Sum(w[..k]) <= i < Sum(w[..k + 1]) ==> InClass(a[k].cls, s[i])
  {
    PieceAt(a, s, w, k);
    var i := Sum(w[..k]);
    assert forall j :: i <= j < i + w[k] ==> s[j] == s[i..][j - i];
  }

  /* ---------- Building greedy fits ---------- */

  lemma FitLit(atoms: seq<Atom>, t: string, x: string, w: seq<nat>)
    requires atoms != [] && atoms[0].OneOf? && t in atoms[0].options && GreedyFits(atoms[1..], x, w)
    ensures GreedyFits(atoms, t + x, [|t|] + w)
  {
    assert (t + x)[..|t|] == t && (t + x)[|t|..] == x;
    assert ([|t|] + w)[1..] == w;
  }

  lemma {:induction false} FitRun(atoms: seq<Atom>, r: string, x: string, w: seq<nat>)
    requires atoms != [] && atoms[0].Run? && atoms[0].min <= |r| && GreedyFits(atoms[1..], x, w)
    requires forall i :: 0 <= i < |r| ==> InClass(atoms[0].cls, r[i])
    requires x != "" ==> !InClass(atoms[0].cls, x[0])
    ensures GreedyFits(atoms, r + x, [|r|] + w)
  {
    RunLengthIs(atoms[0].cls, r + x, |r|);
    assert (r + x)[|r|..] == x;
    assert ([|r|] + w)[1..] == w;
  }

  lemma {:induction false} SumCons(x: nat, w: seq<nat>)
    ensures Sum([x] + w) == x + Sum(w)
  {
    assert ([x] + w)[1..] == w;
  }
}
