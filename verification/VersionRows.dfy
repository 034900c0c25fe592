/** The three registered patterns, written out. */
module VersionRows {
  import opened Text
  import opened Regex
  import opened VersionSites
  import opened BumpVersion

  /* ---------- Any pattern ---------- */

  /** What stands behind the version of a match: the closing literal, or no further digit. */
  predicate Closes(p: SiteRow, s: string, h: Hit)
    requires p.WellFormed() && h.end <= h.stop <= |s|
  {
    if p.post == [] then h.stop == h.end && (h.stop < |s| ==> !IsDigit(s[h.stop]))
    else s[h.end..h.stop] in p.post[0].options
  }

  lemma {:induction false} RowMeans(p: SiteRow, s: string) returns (u: seq<nat>)
    requires p.WellFormed() && HitAt(p, s).Some?
    ensures var h := HitAt(p, s).value;
            GreedyFits(p.pre, s, u) && Sum(u) == h.start && Semver(s[h.start..h.end]) && Closes(p, s, h)
  {
    var h := HitAt(p, s).value;
    var x, y;
    u, x, y := HitParts(p, s);
    HitText(p, s);
    if p.post == [] {
      assert Sum(y) == 0;
    } else {
      assert y == [y[0]] + [];
      SumCons(y[0], []);
      assert s[h.end..][..y[0]] == s[h.end..h.stop];
    }
  }

  lemma {:induction false} RowHere(p: SiteRow, s: string, h: Hit, u: seq<nat>)
    requires p.WellFormed() && GreedyFits(p.pre, s, u) && Sum(u) == h.start < h.end <= h.stop <= |s|
    requires Semver(s[h.start..h.end]) && Closes(p, s, h)
    ensures HitAt(p, s) == Some(h)
  {
    var z := VersionWidths(s[h.start..h.end]);
    VersionHere(p, s, h, z);
    if p.post == [] {
      HitBuild(p, s, h, u, z, []);
    } else {
      ClosingHere(p, s, h);
      SumCons(h.stop - h.end, []);
      HitBuild(p, s, h, u, z, [h.stop - h.end] + []);
    }
  }

  lemma {:induction false} VersionHere(p: SiteRow, s: string, h: Hit, z: seq<nat>)
    requires p.WellFormed() && h.start < h.end <= h.stop <= |s| && Closes(p, s, h)
    requires GreedyFits(VersionAtoms(), s[h.start..h.end], z) && Sum(z) == h.end - h.start
    ensures GreedyFits(VersionAtoms(), s[h.start..], z)
  {
    PlainVersion();
    var v, t := s[h.start..h.end], s[h.start..];
    assert t[..|v|] == v && t[|v|..] == s[h.end..];
    if p.post != [] {
      PlainParts(p);
      ClosingNonempty(p, s[h.end..h.stop]);
      assert s[h.end..][0] == s[h.end..h.stop][0];
    }
    GreedyLocal(VersionAtoms(), v, t, z);
  }

  lemma ClosingNonempty(p: SiteRow, x: string)
    requires p.WellFormed() && p.post != [] && x in p.post[0].options
    ensures x != "" && !IsDigit(x[0])
  {
    PlainParts(p);
    assert PlainAt(p.post, 0);
    assert !InClass(Digit, x[0]);
  }

  lemma ClosingHere(p: SiteRow, s: string, h: Hit)
    requires p.WellFormed() && p.post != [] && h.end <= h.stop <= |s| && Closes(p, s, h)
    ensures GreedyFits(p.post, s[h.end..], [h.stop - h.end] + [])
  {
    assert s[h.end..][..h.stop - h.end] == s[h.end..h.stop];
    assert p.post[1..] == [] && ([h.stop - h.end] + [])[1..] == [];
  }

  /* ---------- The release line ---------- */

  /** A key, white space, and the version between ticks. */
  ghost predicate IsTicked(s: string, key: string, tick: string, h: Hit) {
    |key| + 1 < h.start < h.end && h.stop == h.end + 1 <= |s| && s[..|key|] == key &&
    (forall k :: |key| <= k < h.start - 1 ==> IsSpace(s[k])) && s[h.start - 1..h.start] == tick &&
    Semver(s[h.start..h.end]) && s[h.end..h.stop] == tick
  }

  /** The release line is matched where the bold key is followed by white space and by a version between
      backquotes, and nowhere else. */
  lemma {:induction false} ReleaseLineIs(s: string, h: Hit)
    ensures RELEASE_LINE.WellFormed()
    ensures HitAt(RELEASE_LINE, s) == Some(h) <==> IsTicked(s, "**Current release:**", "`", h)
  {
    ReleaseLineSite();
    TickedRow(RELEASE_LINE, s, "**Current release:**", "`", h);
  }

  lemma {:induction false} TickedRow(p: SiteRow, s: string, key: string, tick: string, h: Hit)
    requires p.WellFormed() && p.pre == [Lit(key), Run(Space, 1), Lit(tick)]
    requires p.post == [Lit(tick)] && |tick| == 1 && !IsSpace(tick[0])
    ensures HitAt(p, s) == Some(h) <==> IsTicked(s, key, tick, h)
  {
    if HitAt(p, s) == Some(h) {
      TickedMeans(p, s, key, tick, h);
    }
    if IsTicked(s, key, tick, h) {
      assert s[h.start - 1..h.start][0] == s[h.start - 1];
      var u := ReleasePreHere(p.pre, key, tick, s, h.start);
      RowHere(p, s, h, u);
    }
  }

  lemma {:induction false} TickedMeans(p: SiteRow, s: string, key: string, tick: string, h: Hit)
    requires p.WellFormed() && p.pre == [Lit(key), Run(Space, 1), Lit(tick)]
    requires p.post == [Lit(tick)] && |tick| == 1 && HitAt(p, s) == Some(h)
    ensures IsTicked(s, key, tick, h)
  {
    var u := RowMeans(p, s);
    ReleasePreMeans(p.pre, key, tick, s, u);
    assert |s[h.end..h.stop]| == 1 && [s[h.start - 1]] == tick;
  }

  lemma {:induction false} ReleasePreMeans(a: seq<Atom>, key: string, tick: string, s: string, u: seq<nat>)
    requires |a| == 3 && a[0] == Lit(key) && a[1] == Run(Space, 1) && a[2] == Lit(tick) && |tick| == 1
    requires GreedyFits(a, s, u)
    ensures |key| + 1 < Sum(u) <= |s| && s[..|key|] == key && s[Sum(u) - 1] == tick[0]
    ensures forall k :: |key| <= k < Sum(u) - 1 ==> IsSpace(s[k])
  {
    GreedyIsFit(a, s, u);
    LitAt(a, s, u, 0, key);
    RunAt(a, s, u, 1);
    LitAt(a, s, u, 2, tick);
    assert u[..0] == [] && u[..3] == u;
    assert s[Sum(u[..2])..Sum(u)][0] == s[Sum(u) - 1];
  }

  lemma {:induction false} ReleasePreHere(a: seq<Atom>, key: string, tick: string, s: string, n: nat)
    returns (u: seq<nat>)
    requires |a| == 3 && a[0] == Lit(key) && a[1] == Run(Space, 1) && a[2] == Lit(tick) && |tick| == 1
    requires !IsSpace(tick[0]) && |key| + 1 < n <= |s| && s[..|key|] == key && s[n - 1] == tick[0]
    requires forall k :: |key| <= k < n - 1 ==> IsSpace(s[k])
    ensures GreedyFits(a, s, u) && Sum(u) == n
  {
    var r, x := s[|key|..n - 1], s[n..];
    assert a[2..][1..] == [] && a[1..][1..] == a[2..];
    FitLit(a[2..], tick, x, []);
    assert (tick + x)[0] == tick[0];
    FitRun(a[1..], r, tick + x, [1] + []);
    FitLit(a, key, r + (tick + x), [|r|] + ([1] + []));
    TickedText(s, key, tick, n);
    u := [|key|] + ([|r|] + ([1] + []));
    SumCons(1, []);
    SumCons(|r|, [1] + []);
    SumCons(|key|, [|r|] + ([1] + []));
  }

  lemma TickedText(s: string, key: string, tick: string, n: nat)
    requires |key| < n <= |s| && s[..|key|] == key && [s[n - 1]] == tick
    ensures s == key + (s[|key|..n - 1] + (tick + s[n..]))
  {}

  /* ---------- The docker tag ---------- */

  /** The tag and the version, with no digit behind it. */
  ghost predicate IsDockerTag(s: string, h: Hit) {
    h.start == 20 < h.end && h.stop == h.end <= |s| && s[..20] == "openhardwaremanager:" &&
    Semver(s[h.start..h.end]) && (h.stop < |s| ==> !IsDigit(s[h.stop]))
  }

  lemma {:induction false} DockerTagIs(s: string, h: Hit)
    ensures DOCKER_TAG.WellFormed()
    ensures HitAt(DOCKER_TAG, s) == Some(h) <==> IsDockerTag(s, h)
  {
    DockerTagSite();
    var key := "openhardwaremanager:";
    if HitAt(DOCKER_TAG, s) == Some(h) {
      var u := RowMeans(DOCKER_TAG, s);
      OneMeans(DOCKER_TAG.pre, key, s, u);
    }
    if IsDockerTag(s, h) {
      OneHere(DOCKER_TAG.pre, key, s);
      RowHere(DOCKER_TAG, s, h, [|key|] + []);
    }
  }

  lemma {:induction false} OneMeans(a: seq<Atom>, key: string, s: string, u: seq<nat>)
    requires a == [Lit(key)] && GreedyFits(a, s, u)
    ensures Sum(u) == |key| <= |s| && s[..|key|] == key
  {
    GreedyIsFit(a, s, u);
    LitAt(a, s, u, 0, key);
    assert u[..0] == [] && u[..1] == u;
  }

  lemma {:induction false} OneHere(a: seq<Atom>, key: string, s: string)
    requires a == [Lit(key)] && |key| <= |s| && s[..|key|] == key
    ensures GreedyFits(a, s, [|key|] + []) && Sum([|key|] + []) == |key|
  {
    assert a[1..] == [];
    FitLit(a, key, s[|key|..], []);
    assert s == key + s[|key|..];
    SumCons(|key|, []);
  }

  /* ---------- The compose tags ---------- */

  /** A word, one of two ends of it, an opening, and the version in front of a brace. */
  ghost predicate IsBraced(s: string, x: string, z: seq<string>, y: string, h: Hit) {
    h.start < h.end && h.stop == h.end + 1 <= |s| && Semver(s[h.start..h.end]) && s[h.end..h.stop] == "}" &&
    exists o :: o in z && s[..h.start] == x + (o + y)
  }

  lemma {:induction false} ComposeTagsIs(s: string, h: Hit)
    ensures COMPOSE_TAGS.WellFormed()
    ensures HitAt(COMPOSE_TAGS, s) == Some(h) <==>
            IsBraced(s, "openhardwaremanager", ["-frontend:", ":"], "${OHM_VERSION:-", h)
  {
    ComposeTagsSite();
    BracedRow(COMPOSE_TAGS, s, "openhardwaremanager", ["-frontend:", ":"], "${OHM_VERSION:-", h);
  }

  lemma {:induction false} BracedRow(p: SiteRow, s: string, x: string, z: seq<string>, y: string, h: Hit)
    requires p.WellFormed() && p.pre == [Lit(x), OneOf(z), Lit(y)] && p.post == [Lit("}")]
    ensures HitAt(p, s) == Some(h) <==> IsBraced(s, x, z, y, h)
  {
    if HitAt(p, s) == Some(h) {
      var u := RowMeans(p, s);
      ThreeMeans(p.pre, x, z, y, s, u);
    }
    if IsBraced(s, x, z, y, h) {
      var o :| o in z && s[..h.start] == x + (o + y);
      ThreeHere(p.pre, x, z, o, y, s, h.start);
      RowHere(p, s, h, [|x|] + ([|o|] + ([|y|] + [])));
    }
  }

  lemma {:induction false} ThreeMeans(a: seq<Atom>, x: string, z: seq<string>, y: string, s: string, u: seq<nat>)
    requires a == [Lit(x), OneOf(z), Lit(y)] && GreedyFits(a, s, u)
    ensures Sum(u) <= |s| && exists o :: o in z && s[..Sum(u)] == x + (o + y)
  {
    GreedyIsFit(a, s, u);
    LitAt(a, s, u, 0, x);
    PieceAt(a, s, u, 1);
    LitAt(a, s, u, 2, y);
    assert u[..0] == [] && u[..3] == u;
    var o := s[Sum(u[..1])..][..u[1]];
    assert s[..Sum(u)] == s[..Sum(u[..1])] + (s[Sum(u[..1])..Sum(u[..2])] + s[Sum(u[..2])..Sum(u)]);
    assert o == s[Sum(u[..1])..Sum(u[..2])];
  }

  lemma {:induction false} ThreeHere(a: seq<Atom>, x: string, z: seq<string>, o: string, y: string, s: string, n: nat)
    requires a == [Lit(x), OneOf(z), Lit(y)] && o in z && n <= |s| && s[..n] == x + (o + y)
    ensures GreedyFits(a, s, [|x|] + ([|o|] + ([|y|] + [])))
    ensures Sum([|x|] + ([|o|] + ([|y|] + []))) == n
  {
    var t := s[n..];
    assert a[2..][1..] == [] && a[1..][1..] == a[2..];
    FitLit(a[2..], y, t, []);
    FitLit(a[1..], o, y + t, [|y|] + []);
    FitLit(a, x, o + (y + t), [|o|] + ([|y|] + []));
    assert s == s[..n] + t && s == x + (o + (y + t));
    SumCons(|y|, []);
    SumCons(|o|, [|y|] + []);
    SumCons(|x|, [|o|] + ([|y|] + []));
  }
}
