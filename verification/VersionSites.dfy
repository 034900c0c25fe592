/** One registered version site: scanning a text for its versions and rewriting them in place.
    Texts are scanned left to right, as `re.finditer` and `re.sub` do, by recursion on the suffix
    that is still to be read. */
module VersionSites {
  import opened Text
  import opened Regex

  /* ---------- Registry rows ---------- */

  /** A registry row. The pattern is `pre` followed by the version group `v` followed by `post`. */
  datatype SiteRow = SiteRow(relpath: string, pre: seq<Atom>, post: seq<Atom>, caption: string) {
    function Pattern(): seq<Atom> { pre + VersionAtoms() + post }

    predicate HasKey() {
      pre != [] && pre[0].OneOf? && |pre[0].options| == 1
    }

    /** The literal every match begins with. */
    function Key(): string
      requires HasKey()
    {
      pre[0].options[0]
    }

    /** The character at offset `a` of the key occurs nowhere else in a match. */
    ghost predicate Anchored(a: nat)
      requires HasKey()
    {
      a < |Key()| &&
      (forall j :: 0 <= j < |Key()| && Key()[j] == Key()[a] ==> j == a) &&
      (forall k :: 1 <= k < |pre| ==> Excludes(pre[k], Key()[a])) &&
      (forall k :: 0 <= k < |VersionAtoms()| ==> Excludes(VersionAtoms()[k], Key()[a])) &&
      (forall k :: 0 <= k < |post| ==> Excludes(post[k], Key()[a]))
    }

    /** What makes a row a usable site: its pattern can match in one way only, starts with a
        literal, and two of its matches cannot overlap. */
    ghost predicate WellFormed() {
      Plain(Pattern()) && HasKey() &&
      (post == [] || (|post| == 1 && post[0].OneOf?)) &&
      exists a :: Anchored(a)
    }

    /** No match of this row contains the character `c`. */
    predicate Avoids(c: char) {
      (forall k :: 0 <= k < |pre| ==> Excludes(pre[k], c)) &&
      (forall k :: 0 <= k < |VersionAtoms()| ==> Excludes(VersionAtoms()[k], c)) &&
      (forall k :: 0 <= k < |post| ==> Excludes(post[k], c))
    }
  }

  /** `\d+\.\d+\.\d+` */
  function VersionAtoms(): seq<Atom> {
    [Run(Digit, 1), Lit("."), Run(Digit, 1), Lit("."), Run(Digit, 1)]
  }

  /** Two rows for the same file do not interfere: neither's matches contain the other's first
      character, which is no line break. */
  ghost predicate Unmixed(p: SiteRow, q: SiteRow)
    requires p.WellFormed() && q.WellFormed()
  {
    KeyNonempty(p); KeyNonempty(q);
    p.Avoids(q.Key()[0]) && q.Avoids(p.Key()[0]) && p.Key()[0] != '\n' && q.Key()[0] != '\n'
  }

  lemma KeyNonempty(p: SiteRow)
    requires p.WellFormed()
    ensures p.Key() != ""
  {
    var a :| p.Anchored(a);
  }

  /* ---------- Versions ---------- */

  /** Exactly `MAJOR.MINOR.PATCH`. */
  predicate Semver(v: string) {
    var m := Match(VersionAtoms(), v);
    m.Some? && Sum(m.value) == |v|
  }

  lemma PlainVersion()
    ensures Plain(VersionAtoms())
  {
    forall k: nat | k < |VersionAtoms()| ensures PlainAt(VersionAtoms(), k) {}
  }

  /** The widths of the five pieces of a version. */
  ghost function VersionWidths(v: string): (x: seq<nat>)
    requires Semver(v)
    ensures GreedyFits(VersionAtoms(), v, x) && Sum(x) == |v|
  {
    PlainVersion();
    PlainMatch(VersionAtoms(), v, Match(VersionAtoms(), v).value);
    Match(VersionAtoms(), v).value
  }

  /** A version starts with a digit and consists of digits and dots. */
  lemma SemverChars(v: string)
    requires Semver(v)
    ensures v != "" && IsDigit(v[0])
    ensures forall i :: 0 <= i < |v| ==> IsDigit(v[i]) || v[i] == '.'
  {
    var x := VersionWidths(v);
    GreedyIsFit(VersionAtoms(), v, x);
    forall i | 0 <= i < |v| ensures IsDigit(v[i]) || v[i] == '.' {
      if !IsDigit(v[i]) && v[i] != '.' {
        FitExcludes(VersionAtoms(), v, x, v[i]);
      }
    }
  }

  /** `_SEMVER_RE.match`. The pattern ends in `$`, which also matches before a final newline. */
  predicate Accepts(v: string) {
    Semver(v) || (v != "" && v[|v| - 1] == '\n' && Semver(v[..|v| - 1]))
  }

  lemma AcceptedChars(v: string)
    requires Accepts(v)
    ensures v != "" && IsDigit(v[0])
    ensures forall i :: 0 <= i < |v| ==> IsDigit(v[i]) || v[i] == '.' || (v[i] == '\n' && i == |v| - 1)
    ensures Semver(v) <==> v[|v| - 1] != '\n'
  {
    if Semver(v) {
      SemverChars(v);
    } else {
      var x := v[..|v| - 1];
      SemverChars(x);
      assert forall i :: 0 <= i < |x| ==> v[i] == x[i];
    }
  }

  /* ---------- A match of a site at the head of a text ---------- */

  function HitAt(p: SiteRow, s: string): (r: Option<Hit>)
    requires p.WellFormed()
    ensures r.Some? ==> 0 < r.value.start < r.value.end <= r.value.stop <= |s|
  {
    match Match(p.Pattern(), s)
    case None => None
    case Some(w) =>
      HitSplit(p, s, w);
      Some(Hit(Sum(w[..|p.pre|]), Sum(w[..|p.pre| + 5]), Sum(w)))
  }

  /** The parts of a match, with the widths of their pieces. */
  ghost predicate Splits(p: SiteRow, s: string, h: Hit, u: seq<nat>, x: seq<nat>, y: seq<nat>) {
    h.start == Sum(u) && h.end == h.start + Sum(x) && h.stop == h.end + Sum(y) &&
    Fits3(p.pre, VersionAtoms(), p.post, s, u, x, y)
  }

  lemma {:induction false} HitSplit(p: SiteRow, s: string, w: seq<nat>)
    requires p.WellFormed() && Match(p.Pattern(), s) == Some(w)
    ensures |w| == |p.pre| + 5 + |p.post|
    ensures var n := |p.pre|;
            var h := Hit(Sum(w[..n]), Sum(w[..n + 5]), Sum(w));
            0 < h.start < h.end <= h.stop <= |s| &&
            Splits(p, s, h, w[..n], w[n..n + 5], w[n + 5..])
  {
    var n := |p.pre|;
    PlainMatch(p.Pattern(), s, w);
    assert |w| == n + 5 + |p.post|;
    var u, x, y := w[..n], w[n..n + 5], w[n + 5..];
    assert w == u + x + y && w[..n + 5] == u + x;
    GroupParts(p.pre, VersionAtoms(), p.post, s, u, x, y);
    KeyFits(p, s, u);
    VersionPositive(s[Sum(u)..], x);
  }

  lemma KeyFits(p: SiteRow, s: string, u: seq<nat>)
    requires p.WellFormed() && GreedyFits(p.pre, s, u)
    ensures p.Key() != "" && p.Key() <= s && u[0] == |p.Key()| <= Sum(u)
  {
    KeyNonempty(p);
    assert s[..u[0]] == p.Key();
  }

  lemma VersionPositive(s: string, x: seq<nat>)
    requires GreedyFits(VersionAtoms(), s, x)
    ensures Sum(x) > 0
  {
    assert x[0] <= Sum(x);
  }

  lemma HitBuild(p: SiteRow, s: string, h: Hit, u: seq<nat>, x: seq<nat>, y: seq<nat>)
    requires p.WellFormed() && Splits(p, s, h, u, x, y)
    ensures HitAt(p, s) == Some(h)
  {
    GroupParts(p.pre, VersionAtoms(), p.post, s, u, x, y);
    PlainMatch(p.Pattern(), s, u + x + y);
    assert (u + x + y)[..|p.pre|] == u && (u + x + y)[..|p.pre| + 5] == u + x;
  }

  lemma HitParts(p: SiteRow, s: string) returns (u: seq<nat>, x: seq<nat>, y: seq<nat>)
    requires p.WellFormed() && HitAt(p, s).Some?
    ensures Splits(p, s, HitAt(p, s).value, u, x, y)
  {
    var w := Match(p.Pattern(), s).value;
    HitSplit(p, s, w);
    u, x, y := w[..|p.pre|], w[|p.pre|..|p.pre| + 5], w[|p.pre| + 5..];
  }

  /** What may follow a match without being drawn into it. */
  predicate Ends(p: SiteRow, rest: string) {
    p.post == [] && rest != "" ==> !IsDigit(rest[0])
  }

  lemma PlainParts(p: SiteRow)
    requires p.WellFormed()
    ensures Plain(p.pre) && p.pre[|p.pre| - 1].OneOf? && Plain(VersionAtoms()) && Plain(p.post)
    ensures p.post != [] ==> HeadsOutside(p.post[0].options, Digit)
  {
    PlainVersion();
    var n := |p.pre|;
    forall k: nat | k < n ensures PlainAt(p.pre, k) && (k == n - 1 ==> p.pre[k].OneOf?) {
      assert PlainAt(p.Pattern(), k);
      assert p.Pattern()[k] == p.pre[k];
      assert p.Pattern()[n] == Run(Digit, 1);
      assert k + 1 < n ==> p.Pattern()[k + 1] == p.pre[k + 1];
    }
    forall k: nat | k < |p.post| ensures PlainAt(p.post, k) {
      assert PlainAt(p.Pattern(), n + 5 + k);
      assert p.Pattern()[n + 5 + k] == p.post[k];
    }
    assert PlainAt(p.Pattern(), n + 4) && p.Pattern()[n + 4] == Run(Digit, 1);
    assert p.post != [] ==> p.Pattern()[n + 4 + 1] == p.post[0];
  }

  /** The matched text is a version, the key is in front of it, and a match without closing
      literal is not followed by a digit. */
  lemma HitText(p: SiteRow, s: string)
    requires p.WellFormed() && HitAt(p, s).Some?
    ensures var h := HitAt(p, s).value;
            Semver(s[h.start..h.end]) && |p.Key()| <= h.start && p.Key() <= s && Ends(p, s[h.stop..])
  {
    var h := HitAt(p, s).value;
    var u, x, y := HitParts(p, s);
    KeyFits(p, s, u);
    VersionText(s[h.start..], x);
    assert s[h.start..h.end] == s[h.start..][..Sum(x)];
    if p.post == [] && h.stop < |s| {
      VersionStops(s[h.start..], x);
    }
  }

  lemma VersionText(s: string, x: seq<nat>)
    requires GreedyFits(VersionAtoms(), s, x) && Sum(x) <= |s|
    ensures Semver(s[..Sum(x)])
  {
    PlainVersion();
    GreedyLocal(VersionAtoms(), s, s[..Sum(x)], x);
    PlainMatch(VersionAtoms(), s[..Sum(x)], x);
  }

  lemma VersionStops(s: string, x: seq<nat>)
    requires GreedyFits(VersionAtoms(), s, x) && Sum(x) < |s|
    ensures !IsDigit(s[Sum(x)])
  {
    var a, b := VersionAtoms()[..4], VersionAtoms()[4..];
    assert VersionAtoms() == a + b && x == x[..4] + x[4..];
    GreedyConcat(a, b, s, x[..4], x[4..]);
    SumConcat(x[..4], x[4..]);
  }

  /** A match depends only on its own characters and on the one after it. */
  lemma HitLocal(p: SiteRow, s: string, t: string)
    requires p.WellFormed() && HitAt(p, s).Some?
    requires var h := HitAt(p, s).value; s[..h.stop] <= t && Ends(p, t[h.stop..])
    ensures HitAt(p, t) == HitAt(p, s)
  {
    var h := HitAt(p, s).value;
    HitText(p, s);
    var v := s[h.start..h.end];
    assert s[..h.start] + v + s[h.end..h.stop] == s[..h.stop];
    HitReplace(p, s, t, v);
  }

  /** Putting another version into a match leaves a match. */
  lemma HitReplace(p: SiteRow, s: string, t: string, v: string)
    requires p.WellFormed() && HitAt(p, s).Some? && Semver(v)
    requires var h := HitAt(p, s).value;
             s[..h.start] + v + s[h.end..h.stop] <= t &&
             Ends(p, t[h.start + |v| + h.stop - h.end..])
    ensures var h := HitAt(p, s).value;
            HitAt(p, t) == Some(Hit(h.start, h.start + |v|, h.start + |v| + h.stop - h.end))
  {
    var h := HitAt(p, s).value;
    var u, x, y := HitParts(p, s);
    var z := VersionWidths(v);
    assert Fits3(p.pre, VersionAtoms(), p.post, t, u, z, y) by { HitRefits(p, s, t, v, h, u, x, y, z); }
    HitBuild(p, t, Hit(h.start, h.start + |v|, h.start + |v| + h.stop - h.end), u, z, y);
  }

  /** The pieces of a match fit again around another version. */
  lemma {:induction false} HitRefits(p: SiteRow, s: string, t: string, v: string, h: Hit,
                                     u: seq<nat>, x: seq<nat>, y: seq<nat>, z: seq<nat>)
    requires p.WellFormed() && Splits(p, s, h, u, x, y) && GreedyFits(VersionAtoms(), v, z) && Sum(z) == |v|
    requires s[..h.start] + v + s[h.end..h.stop] <= t && Ends(p, t[h.start + |v| + h.stop - h.end..])
    ensures Fits3(p.pre, VersionAtoms(), p.post, t, u, z, y)
  {
    RefitStops(p, s, t, v, h, u, x, y);
    PlainParts(p);
    GroupReplace(p.pre, VersionAtoms(), p.post, s, t, v, u, x, y, z);
  }

  lemma RefitStops(p: SiteRow, s: string, t: string, v: string, h: Hit, u: seq<nat>, x: seq<nat>, y: seq<nat>)
    requires p.WellFormed() && Splits(p, s, h, u, x, y) && h.start <= h.end <= h.stop <= |s|
    requires s[..h.start] + v + s[h.end..h.stop] <= t && Ends(p, t[h.start + |v| + h.stop - h.end..])
    ensures h.start + |v| <= |t| && Stops(VersionAtoms(), t[h.start + |v|..])
  {
    LastPiece(s[..h.start], v, s[h.end..h.stop], t);
    VersionMayStop(p, s, t, h, u, x, y, h.start + |v|);
  }

  lemma LastPiece(x: string, y: string, z: string, t: string)
    requires x + y + z <= t
    ensures |x| + |y| + |z| <= |t| && t[|x| + |y|..|x| + |y| + |z|] == z
  {
    assert t[..|x + y + z|] == x + y + z;
    assert t[|x| + |y|..|x| + |y| + |z|] == (x + y + z)[|x| + |y|..];
  }

  /** What follows a version in a match - a closing literal, or whatever may end a match - cannot
      continue it. */
  lemma VersionMayStop(p: SiteRow, s: string, t: string, h: Hit,
                                          u: seq<nat>, x: seq<nat>, y: seq<nat>, i: nat)
    requires p.WellFormed() && Splits(p, s, h, u, x, y)
    requires i + h.stop - h.end <= |t| && t[i..i + h.stop - h.end] == s[h.end..h.stop]
    requires Ends(p, t[i + h.stop - h.end..])
    ensures Stops(VersionAtoms(), t[i..])
  {
    if p.post != [] {
      ClosingHead(p, s, t, h, u, x, y, i);
    } else {
      assert Sum(y) == 0;
    }
  }

  lemma ClosingHead(p: SiteRow, s: string, t: string, h: Hit, u: seq<nat>, x: seq<nat>,
                                       y: seq<nat>, i: nat)
    requires p.WellFormed() && Splits(p, s, h, u, x, y) && p.post != []
    requires i + h.stop - h.end <= |t| && t[i..i + h.stop - h.end] == s[h.end..h.stop]
    ensures i < |t| && !IsDigit(t[i])
  {
    PlainParts(p);
    assert PlainAt(p.post, 0);
    assert y[0] <= Sum(y) && s[h.end..][..y[0]] in p.post[0].options;
    assert s[h.end..][..y[0]] != "";
    assert t[i] == t[i..i + h.stop - h.end][0] == s[h.end..h.stop][0] == s[h.end..][..y[0]][0];
  }

  /** A match contains none of the characters its row avoids. */
  lemma HitAvoids(p: SiteRow, s: string, c: char)
    requires p.WellFormed() && HitAt(p, s).Some? && p.Avoids(c)
    ensures forall j :: 0 <= j < HitAt(p, s).value.stop ==> s[j] != c
  {
    var h := HitAt(p, s).value;
    var u, x, y := HitParts(p, s);
    GreedyIsFit(p.pre, s, u);
    GreedyIsFit(VersionAtoms(), s[h.start..], x);
    GreedyIsFit(p.post, s[h.end..], y);
    FitExcludes(p.pre, s, u, c);
    FitExcludes(VersionAtoms(), s[h.start..], x, c);
    FitExcludes(p.post, s[h.end..], y, c);
    forall j | 0 <= j < h.stop ensures s[j] != c {
      if h.end <= j {
        assert s[j] == s[h.end..][j - h.end];
      } else if h.start <= j {
        assert s[j] == s[h.start..][j - h.start];
      }
    }
  }

  /** Behind the key a match does not contain the anchor character. */
  lemma NoAnchorBehindKey(p: SiteRow, s: string, a: nat, i: nat)
    requires p.WellFormed() && HitAt(p, s).Some? && p.Anchored(a)
    requires |p.Key()| <= i < HitAt(p, s).value.stop
    ensures s[i] != p.Key()[a]
  {
    var h, c := HitAt(p, s).value, p.Key()[a];
    var u, x, y := HitParts(p, s);
    KeyFits(p, s, u);
    if h.end <= i {
      FitAvoids(p.post, s[h.end..], y, c, i - h.end);
    } else if h.start <= i {
      FitAvoids(VersionAtoms(), s[h.start..], x, c, i - h.start);
    } else {
      FitAvoids(p.pre[1..], s[u[0]..], u[1..], c, i - u[0]);
    }
  }

  lemma FitAvoids(atoms: seq<Atom>, s: string, w: seq<nat>, c: char, i: nat)
    requires GreedyFits(atoms, s, w) && i < Sum(w) && forall k :: 0 <= k < |atoms| ==> Excludes(atoms[k], c)
    ensures i < |s| && s[i] != c
  {
    GreedyIsFit(atoms, s, w);
    FitExcludes(atoms, s, w, c);
  }

  /** The anchor character of a row is found in a match at the anchor offset only. */
  lemma HitAnchor(p: SiteRow, s: string, a: nat, j: nat)
    requires p.WellFormed() && HitAt(p, s).Some? && p.Anchored(a)
    requires j < HitAt(p, s).value.stop && s[j] == p.Key()[a]
    ensures j == a
  {
    HitText(p, s);
    if |p.Key()| <= j {
      NoAnchorBehindKey(p, s, a, j);
    } else {
      assert s[..|p.Key()|][j] == p.Key()[j];
    }
  }
}
