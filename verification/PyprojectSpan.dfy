/** What of pyproject.toml a new version replaces: the first line that begins with a version field, and
    of it the field only. */
module PyprojectSpan {
  import opened Text
  import opened Regex
  import opened PyprojectField

  /* ---------- A field, written out ---------- */

  /** `version`, an equals sign at `i` among white space, and a quote at `j`. */
  ghost predicate IsOpening(s: string, i: nat, j: nat) {
    7 <= i < j < |s| && s[..7] == "version" && s[i] == '=' && s[j] == '"' &&
    forall k :: 7 <= k < i || i < k < j ==> IsSpace(s[k])
  }

  /** An opening, a nonempty value and the next quote, at `e`. */
  ghost predicate IsField(s: string, i: nat, j: nat, e: nat) {
    IsOpening(s, i, j) && j + 1 < e < |s| && s[e] == '"' && forall k :: j < k < e ==> s[k] != '"'
  }

  ghost predicate StartsField(s: string) { exists i, j, e :: IsField(s, i, j, e) }

  /** What the pattern matches is a field. */
  lemma {:induction false} FieldMeans(s: string) returns (i: nat)
    requires FieldAt(s).Some?
    ensures IsField(s, i, FieldAt(s).value.start - 1, FieldAt(s).value.end)
  {
    var w := Match(FieldAtoms(), s).value;
    FieldWidths(s, w);
    ClosingQuote(s);
    i := OpeningMeans(Opening(), s, w[..5]);
    ValueMeans(s, FieldAt(s).value.start, FieldAt(s).value.end);
  }

  lemma ValueMeans(s: string, r: nat, e: nat)
    requires r < e <= |s| && e == r + RunLength(NotQuote, s[r..])
    ensures forall k :: r <= k < e ==> s[k] != '"'
  {
    forall k | r <= k < e ensures s[k] != '"' {
      assert s[k] == s[r..][k - r] && InClass(NotQuote, s[r..][k - r]);
    }
  }

  lemma {:induction false} OpeningMeans(a: seq<Atom>, s: string, u: seq<nat>) returns (i: nat)
    requires a == Opening() && GreedyFits(a, s, u)
    ensures Sum(u) > 0 && IsOpening(s, i, Sum(u) - 1)
  {
    GreedyIsFit(a, s, u);
    assert u[..0] == [] && u[..5] == u;
    RunAt(a, s, u, 1);
    RunAt(a, s, u, 3);
    OpeningLits(a, s, u);
    i := Sum(u[..2]);
    OpeningFrom(s, Sum(u[..1]), Sum(u[..2]), Sum(u[..3]), Sum(u[..4]), Sum(u));
  }

  lemma {:induction false} OpeningLits(a: seq<Atom>, s: string, u: seq<nat>)
    requires a == Opening() && Fits(a, s, u)
    ensures Sum(u[..1]) == 7 <= |s| && s[0..7] == "version"
    ensures Sum(u[..3]) == Sum(u[..2]) + 1 <= |s| && s[Sum(u[..2])..Sum(u[..3])] == "="
    ensures Sum(u[..5]) == Sum(u[..4]) + 1 <= |s| && s[Sum(u[..4])..Sum(u[..5])] == "\""
  {
    LitAt(a, s, u, 0, "version");
    LitAt(a, s, u, 2, "=");
    LitAt(a, s, u, 4, "\"");
  }

  /** The pieces of an opening, by position. */
  lemma OpeningFrom(s: string, b: nat, c: nat, d: nat, e: nat, f: nat)
    requires 7 == b <= c && c + 1 == d <= e && e + 1 == f <= |s|
    requires s[0..b] == "version" && s[c..d] == "=" && s[e..f] == "\""
    requires forall k :: b <= k < c || d <= k < e ==> InClass(Space, s[k])
    ensures IsOpening(s, c, e)
  {
    assert s[c] == s[c..d][0] && s[e] == s[e..f][0];
  }

  /** A field is matched, with its value as the group. */
  lemma {:induction false} FieldHere(s: string, i: nat, j: nat, e: nat)
    requires IsField(s, i, j, e)
    ensures FieldAt(s) == Some(Field(j + 1, e))
  {
    var u := OpeningHere(Opening(), s, i, j);
    FieldFrom(s, u, j + 1, e);
  }

  lemma FieldFrom(s: string, u: seq<nat>, r: nat, e: nat)
    requires GreedyFits(Opening(), s, u) && Sum(u) == r < e < |s| && s[e] == '"'
    requires forall k :: r <= k < e ==> s[k] != '"'
    ensures FieldAt(s) == Some(Field(r, e))
  {
    ValueHere(s, r, e);
    FieldBuild(s, u);
  }

  lemma ValueHere(s: string, r: nat, e: nat)
    requires r <= e < |s| && s[e] == '"' && forall k :: r <= k < e ==> s[k] != '"'
    ensures RunLength(NotQuote, s[r..]) == e - r && e - r < |s[r..]|
  {
    RunLengthIs(NotQuote, s[r..], e - r);
  }

  lemma {:induction false} OpeningHere(a: seq<Atom>, s: string, i: nat, j: nat) returns (u: seq<nat>)
    requires a == Opening() && IsOpening(s, i, j)
    ensures GreedyFits(a, s, u) && Sum(u) == j + 1
  {
    SpacesOf(s, 7, i);
    SpacesOf(s, i + 1, j);
    OpeningFits(a, "version", s[7..i], "=", s[i + 1..j], "\"", s[j + 1..]);
    OpeningText(s, i, j);
    OpeningSum(i, j);
    u := [7] + ([i - 7] + ([1] + ([j - i - 1] + ([1] + []))));
  }

  lemma OpeningText(s: string, i: nat, j: nat)
    requires 7 <= i < j < |s| && s[..7] == "version" && s[i] == '=' && s[j] == '"'
    ensures s == "version" + (s[7..i] + ("=" + (s[i + 1..j] + ("\"" + s[j + 1..]))))
  {
    OpeningSlices(s, i, j);
    assert s[i..i + 1] == "=" && s[j..j + 1] == "\"";
  }

  lemma OpeningSlices(s: string, i: nat, j: nat)
    requires 7 <= i < j < |s|
    ensures s == s[..7] + (s[7..i] + (s[i..i + 1] + (s[i + 1..j] + (s[j..j + 1] + s[j + 1..]))))
  {}

  lemma SpacesOf(s: string, a: nat, b: nat)
    requires a <= b <= |s| && forall k :: a <= k < b ==> IsSpace(s[k])
    ensures forall k :: 0 <= k < |s[a..b]| ==> InClass(Space, s[a..b][k])
  {}

  lemma {:induction false} OpeningFits(a: seq<Atom>, word: string, q: string, sign: string, r: string, quote: string,
                                       x: string)
    requires |a| == 5 && a[0] == Lit(word) && a[1] == a[3] == Run(Space, 0) && a[2] == Lit(sign) && a[4] == Lit(quote)
    requires sign != "" && !IsSpace(sign[0]) && quote != "" && !IsSpace(quote[0])
    requires forall k :: 0 <= k < |q| ==> InClass(Space, q[k])
    requires forall k :: 0 <= k < |r| ==> InClass(Space, r[k])
    ensures GreedyFits(a, word + (q + (sign + (r + (quote + x)))),
                       [|word|] + ([|q|] + ([|sign|] + ([|r|] + ([|quote|] + [])))))
  {
    OpeningEnd(a[2..], sign, r, quote, x);
    OpeningFront(a, word, q, sign + (r + (quote + x)), [|sign|] + ([|r|] + ([|quote|] + [])));
    assert (sign + (r + (quote + x)))[0] == sign[0];
  }

  lemma {:induction false} OpeningEnd(a: seq<Atom>, sign: string, r: string, quote: string, x: string)
    requires |a| == 3 && a[0] == Lit(sign) && a[1] == Run(Space, 0) && a[2] == Lit(quote)
    requires quote != "" && !IsSpace(quote[0]) && forall k :: 0 <= k < |r| ==> InClass(Space, r[k])
    ensures GreedyFits(a, sign + (r + (quote + x)), [|sign|] + ([|r|] + ([|quote|] + [])))
  {
    assert a[2..][1..] == [] && a[1..][1..] == a[2..];
    FitLit(a[2..], quote, x, []);
    FitRun(a[1..], r, quote + x, [|quote|] + []);
    FitLit(a, sign, r + (quote + x), [|r|] + ([|quote|] + []));
  }

  lemma {:induction false} OpeningFront(a: seq<Atom>, word: string, q: string, z: string, w: seq<nat>)
    requires |a| >= 2 && a[0] == Lit(word) && a[1] == Run(Space, 0) && z != "" && !IsSpace(z[0])
    requires (forall k :: 0 <= k < |q| ==> InClass(Space, q[k])) && GreedyFits(a[2..], z, w)
    ensures GreedyFits(a, word + (q + z), [|word|] + ([|q|] + w))
  {
    assert a[1..][1..] == a[2..];
    FitRun(a[1..], q, z, w);
    FitLit(a, word, q + z, [|q|] + w);
  }

  lemma {:induction false} OpeningSum(i: nat, j: nat)
    requires 7 <= i < j
    ensures Sum([7] + ([i - 7] + ([1] + ([j - i - 1] + ([1] + []))))) == j + 1
  {
    SumCons(1, []);
    SumCons(j - i - 1, [1] + []);
    SumCons(1, [j - i - 1] + ([1] + []));
    SumCons(i - 7, [1] + ([j - i - 1] + ([1] + [])));
    SumCons(7, [i - 7] + ([1] + ([j - i - 1] + ([1] + []))));
  }

  /* ---------- The first one ---------- */

  predicate LineStart(s: string, k: nat)
    requires k <= |s|
  {
    k == 0 || s[k - 1] == '\n'
  }

  /** No line of the text in front of `m` begins with a field. */
  ghost predicate NoneBefore(s: string, m: nat)
    requires m <= |s|
  {
    forall k :: 0 <= k < m && LineStart(s, k) ==> !StartsField(s[k..])
  }

  /** Where a line begins with a field, the first one is at `FirstField`; elsewhere nothing is read. */
  lemma {:induction false} FirstIs(s: string, bol: bool)
    ensures forall k :: 0 <= k < FirstField(s, bol) && (if k == 0 then bol else s[k - 1] == '\n') ==>
              FieldAt(s[k..]).None?
    ensures ReadVersion(s, bol).Some? ==>
              var m := FirstField(s, bol);
              m < |s| && ReadVersion(s, bol) == Some(s[m..][FieldAt(s[m..]).value.start..FieldAt(s[m..]).value.end])
    decreases |s|
  {
    assert s[0..] == s;
    if s != "" && !(bol && FieldAt(s).Some?) {
      FirstIs(s[1..], s[0] == '\n');
      assert forall k :: 0 < k <= |s| ==> s[k..] == s[1..][k - 1..];
    }
  }

  /** Setting the version replaces the first field by the new one, and keeps every character in front
      of its `version` and behind its closing quote; what is read is the text between its quotes. */
  lemma {:induction false} SetSpan(s: string, v: string) returns (m: nat, i: nat, j: nat, e: nat)
    requires ReadVersion(s, true).Some?
    ensures m < |s| && LineStart(s, m) && NoneBefore(s, m) && IsField(s[m..], i, j, e) && m + e < |s|
    ensures ReadVersion(s, true) == Some(s[m + j + 1..m + e])
    ensures SetVersion(s, true, v) == s[..m] + ("version = \"" + v + "\"") + s[m + e + 1..]
  {
    m := FirstField(s, true);
    NothingFirst(s);
    SetCopies(s, true, v);
    i, j, e := SpanAt(s, m);
  }

  lemma {:induction false} NothingFirst(s: string)
    requires ReadVersion(s, true).Some?
    ensures var m := FirstField(s, true);
            m < |s| && LineStart(s, m) && NoneBefore(s, m) && FieldAt(s[m..]).Some? &&
            ReadVersion(s, true) == Some(s[m..][FieldAt(s[m..]).value.start..FieldAt(s[m..]).value.end])
  {
    FirstIs(s, true);
    NoFields(s, FirstField(s, true));
  }

  /** The field at `m`, by position in the whole text. */
  lemma {:induction false} SpanAt(s: string, m: nat) returns (i: nat, j: nat, e: nat)
    requires m < |s| && FieldAt(s[m..]).Some?
    ensures IsField(s[m..], i, j, e) && m + e < |s| && AfterField(s[m..]) == s[m + e + 1..]
    ensures s[m..][FieldAt(s[m..]).value.start..FieldAt(s[m..]).value.end] == s[m + j + 1..m + e]
  {
    i := FieldMeans(s[m..]);
    var f := FieldAt(s[m..]).value;
    j, e := f.start - 1, f.end;
    Behind(s, m, f.start, f.end);
  }

  lemma Behind(s: string, m: nat, a: nat, b: nat)
    requires m <= |s| && a <= b < |s[m..]|
    ensures s[m..][b + 1..] == s[m + b + 1..] && s[m..][a..b] == s[m + a..m + b]
  {}

  lemma NoFields(s: string, m: nat)
    requires m <= |s| && forall k :: 0 <= k < m && LineStart(s, k) ==> FieldAt(s[k..]).None?
    ensures NoneBefore(s, m)
  {
    forall k | 0 <= k < m && LineStart(s, k) ensures !StartsField(s[k..]) {
      if i, j, e :| IsField(s[k..], i, j, e) {
        FieldHere(s[k..], i, j, e);
      }
    }
  }

  /** A version is read exactly when some line begins with a field. */
  lemma {:induction false} ReadsIfThere(s: string)
    ensures ReadVersion(s, true).Some? <==> !NoneBefore(s, |s|)
  {
    var m := FirstField(s, true);
    FirstIs(s, true);
    if ReadVersion(s, true).Some? {
      var i := FieldMeans(s[m..]);
      assert StartsField(s[m..]);
    } else {
      NoFields(s, |s|);
    }
  }
}
