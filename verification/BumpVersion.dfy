/** Bumping the release version everywhere it is claimed, and the staleness gate over the same
    registry. */
module BumpVersion {
  import opened Text
  import opened Regex
  import opened VersionSites
  import opened VersionScan
  import opened PyprojectField

  /** Texts as `read_text` returns them, by path relative to the repository root. */
  type Files = map<string, string>

  const PYPROJECT := "pyproject.toml"

  /* ---------- The registry ---------- */

  const RELEASE_LINE := SiteRow("README.md", [Lit("**Current release:**"), Run(Space, 1), Lit("`")], [Lit("`")],
                                "current-release line")
  const DOCKER_TAG := SiteRow("README.md", [Lit("openhardwaremanager:")], [], "quickstart docker tag")

  /** `openhardwaremanager(?:-frontend)?:` is the choice, in this order, of the two spellings
      that continue after the common name. */
  const COMPOSE_TAGS := SiteRow("docker-compose.yml",
                                [Lit("openhardwaremanager"), OneOf(["-frontend:", ":"]), Lit("${OHM_VERSION:-")],
                                [Lit("}")], "compose image tags")

  const SITES := [RELEASE_LINE, DOCKER_TAG, COMPOSE_TAGS]

  /** What the registry relies on: usable rows, no two rows of one file interfering, and no row
      claiming the canonical file itself. */
  ghost predicate Registry(sites: seq<SiteRow>) {
    (forall i :: 0 <= i < |sites| ==> sites[i].WellFormed() && sites[i].relpath != PYPROJECT) &&
    forall i, j :: 0 <= i < j < |sites| && sites[i].relpath == sites[j].relpath ==>
      sites[i] != sites[j] && Unmixed(sites[i], sites[j])
  }

  lemma PlainRow(p: SiteRow)
    requires p.HasKey() && p.Key() != ""
    requires |p.pre| == 1 ||
             (|p.pre| == 3 && p.pre[2].OneOf? && PrefixFree(p.pre[2].options) && "" !in p.pre[2].options)
    requires |p.pre| == 3 ==> match p.pre[1]
                              case OneOf(o) => PrefixFree(o) && "" !in o
                              case Run(cls, _) => HeadsOutside(p.pre[2].options, cls)
    requires |p.post| <= 1
    requires p.post != [] ==> p.post[0].OneOf? && |p.post[0].options| == 1 && HeadsOutside(p.post[0].options, Digit)
    ensures Plain(p.Pattern())
  {
    var n := |p.pre|;
    var a := p.Pattern();
    assert forall k :: 0 <= k < n ==> a[k] == p.pre[k];
    assert forall k :: 0 <= k < 5 ==> a[n + k] == VersionAtoms()[k];
    assert p.post != [] ==> a[n + 5] == p.post[0];
    forall k: nat | k < |a| ensures PlainAt(a, k) {
      if n <= k < n + 5 {
        assert PlainAt(VersionAtoms(), k - n) by { PlainVersion(); }
      }
    }
  }

  lemma ReleaseLineAnchored()
    ensures RELEASE_LINE.Anchored(2)
  {
    assert RELEASE_LINE.Key() == "**Current release:**";
  }

  lemma ReleaseLineAvoids()
    ensures RELEASE_LINE.Avoids('o')
  {
    assert 'o' !in "**Current release:**";
  }

  lemma ReleaseLineSite()
    ensures RELEASE_LINE.WellFormed()
  {
    PlainRow(RELEASE_LINE);
    ReleaseLineAnchored();
  }

  lemma DockerTagAnchored()
    ensures DOCKER_TAG.Anchored(1)
  {
    assert DOCKER_TAG.Key() == "openhardwaremanager:";
  }

  lemma DockerTagAvoids()
    ensures DOCKER_TAG.Avoids('*')
  {
    assert '*' !in "openhardwaremanager:";
  }

  lemma DockerTagSite()
    ensures DOCKER_TAG.WellFormed()
  {
    PlainRow(DOCKER_TAG);
    DockerTagAnchored();
  }

  lemma ComposeTagsAnchored()
    ensures COMPOSE_TAGS.Anchored(1)
  {
    OneP(COMPOSE_TAGS.Key());
    AnchoredBy(COMPOSE_TAGS, 'p');
  }

  lemma OneP(key: string)
    requires key == "openhardwaremanager"
    ensures key[1] == 'p' && 'p' !in key[2..] && key[0] != 'p'
  {}

  /** A row whose key has the character `c` second, and nowhere else in a match. */
  lemma AnchoredBy(p: SiteRow, c: char)
    requires p.HasKey() && |p.Key()| > 2 && p.Key()[1] == c && p.Key()[0] != c && c !in p.Key()[2..]
    requires forall k :: 1 <= k < |p.pre| ==> Excludes(p.pre[k], c)
    requires forall k :: 0 <= k < |VersionAtoms()| ==> Excludes(VersionAtoms()[k], c)
    requires forall k :: 0 <= k < |p.post| ==> Excludes(p.post[k], c)
    ensures p.Anchored(1)
  {
    assert forall j :: 2 <= j < |p.Key()| ==> p.Key()[j] == p.Key()[2..][j - 2];
  }

  lemma ComposeTagsSite()
    ensures COMPOSE_TAGS.WellFormed()
  {
    var spellings := COMPOSE_TAGS.pre[1].options;
    assert spellings[0][0] == '-' && spellings[1][0] == ':';
    assert PrefixFree(spellings);
    PlainRow(COMPOSE_TAGS);
    ComposeTagsAnchored();
  }

  /** The registry as committed is one. */
  lemma SitesAreRegistry()
    ensures Registry(SITES)
  {
    ReleaseLineSite();
    DockerTagSite();
    ComposeTagsSite();
    ReadmeUnmixed();
    ReadmeIsOther();
    ThreeRows(RELEASE_LINE, DOCKER_TAG, COMPOSE_TAGS);
  }

  lemma ReadmeUnmixed()
    requires RELEASE_LINE.WellFormed() && DOCKER_TAG.WellFormed()
    ensures Unmixed(RELEASE_LINE, DOCKER_TAG)
  {
    ReleaseLineAvoids();
    DockerTagAvoids();
    assert RELEASE_LINE.Key()[0] == '*' && DOCKER_TAG.Key()[0] == 'o';
  }

  lemma ReadmeIsOther()
    ensures RELEASE_LINE != DOCKER_TAG && RELEASE_LINE.relpath == DOCKER_TAG.relpath
    ensures COMPOSE_TAGS.relpath != DOCKER_TAG.relpath
    ensures COMPOSE_TAGS.relpath != PYPROJECT && DOCKER_TAG.relpath != PYPROJECT
  {
    assert RELEASE_LINE.post != DOCKER_TAG.post;
    assert COMPOSE_TAGS.relpath[0] == 'd' && DOCKER_TAG.relpath[0] == 'R' && PYPROJECT[0] == 'p';
  }

  /** Two rows of one file that do not interfere, and one of another. */
  lemma ThreeRows(a: SiteRow, b: SiteRow, c: SiteRow)
    requires a.WellFormed() && b.WellFormed() && c.WellFormed() && a != b && Unmixed(a, b)
    requires a.relpath == b.relpath != c.relpath && a.relpath != PYPROJECT && c.relpath != PYPROJECT
    ensures Registry([a, b, c])
  {}

  /* ---------- check ---------- */

  datatype Problem = MatchedNothing(site: SiteRow) | Stale(site: SiteRow, versions: set<string>)

  /** The problems at one site. */
  function SiteProblems(p: SiteRow, text: string, target: string): seq<Problem>
    requires p.WellFormed()
  {
    var found := FindVersions(p, text);
    var stale := set v | v in found && v != target;
    if found == [] then [MatchedNothing(p)]
    else if stale != {} then [Stale(p, stale)]
    else []
  }

  /** All problems, or None where reading a registered file raises. */
  function Problems(sites: seq<SiteRow>, files: Files, target: string): Option<seq<Problem>>
    requires forall p :: p in sites ==> p.WellFormed()
  {
    if sites == [] then Some([])
    else if sites[0].relpath !in files then None
    else After(SiteProblems(sites[0], files[sites[0].relpath], target), Problems(sites[1..], files, target))
  }

  function After(list: seq<Problem>, rest: Option<seq<Problem>>): Option<seq<Problem>> {
    match rest
    case None => None
    case Some(r) => Some(list + r)
  }

  lemma AfterChain(a: seq<Problem>, b: seq<Problem>, rest: Option<seq<Problem>>)
    ensures After(a, After(b, rest)) == After(a + b, rest)
    ensures After([], rest) == rest
  {
    if rest.Some? {
      assert a + (b + rest.value) == a + b + rest.value && [] + rest.value == rest.value;
    }
  }

  predicate AllPresent(sites: seq<SiteRow>, files: Files) {
    forall p :: p in sites ==> p.relpath in files
  }

  /** What a site finds in its file. */
  function Found(p: SiteRow, files: Files): seq<string>
    requires p.WellFormed() && p.relpath in files
  {
    FindVersions(p, files[p.relpath])
  }

  predicate UpToDate(p: SiteRow, files: Files, target: string)
    requires p.WellFormed() && p.relpath in files
  {
    Found(p, files) != [] && forall v :: v in Found(p, files) ==> v == target
  }

  /** The gate passes exactly when every site is found and states the target everywhere. */
  lemma {:induction false} CheckIsExact(sites: seq<SiteRow>, files: Files, target: string)
    requires forall p :: p in sites ==> p.WellFormed()
    ensures Problems(sites, files, target).Some? <==> AllPresent(sites, files)
    ensures Problems(sites, files, target) == Some([]) <==>
            AllPresent(sites, files) && forall p :: p in sites ==> UpToDate(p, files, target)
  {
    if sites != [] {
      CheckIsExact(sites[1..], files, target);
      assert sites == [sites[0]] + sites[1..];
      if sites[0].relpath in files {
        NoSiteProblems(sites[0], files, target);
        var list, rest := SiteProblems(sites[0], files[sites[0].relpath], target), Problems(sites[1..], files, target);
        assert rest.Some? ==> |list + rest.value| == |list| + |rest.value|;
      }
    }
  }

  lemma NoSiteProblems(p: SiteRow, files: Files, target: string)
    requires p.WellFormed() && p.relpath in files
    ensures SiteProblems(p, files[p.relpath], target) == [] <==> UpToDate(p, files, target)
  {
    var found := Found(p, files);
    var stale := set v | v in found && v != target;
    if v :| v in found && v != target {
      assert v in stale;
    }
  }

  /* ---------- bump ---------- */

  datatype Outcome = InvalidVersion | NoVersionField | Missing(path: string) | Bumped

  /** Rewrites the sites in registry order, each in the file as the previous ones left it. */
  function BumpSites(sites: seq<SiteRow>, files: Files, v: string): (Outcome, Files)
    requires forall p :: p in sites ==> p.WellFormed()
  {
    if sites == [] then (Bumped, files)
    else
      var p := sites[0];
      if p.relpath !in files then (Missing(p.relpath), files)
      else BumpSites(sites[1..], files[p.relpath := Rewrite(p, files[p.relpath], v)], v)
  }

  function BumpFiles(sites: seq<SiteRow>, files: Files, v: string): (Outcome, Files)
    requires forall p :: p in sites ==> p.WellFormed()
  {
    if !Accepts(v) then (InvalidVersion, files)
    else if PYPROJECT !in files then (Missing(PYPROJECT), files)
    else if ReadVersion(files[PYPROJECT], true).None? then (NoVersionField, files)
    else BumpSites(sites, files[PYPROJECT := SetVersion(files[PYPROJECT], true, v)], v)
  }

  lemma RewriteUnmatched(p: SiteRow, s: string, v: string)
    requires p.WellFormed() && FindVersions(p, s) == []
    ensures Rewrite(p, s, v) == s
  {
    RewriteFillsSkeleton(p, s, v);
    assert Repeat(v, 0) == [];
  }

  /** The files of the working tree. */
  class WorkTree {
    var files: Files

    constructor (files: Files)
      ensures this.files == files
    {
      this.files := files;
    }

    /** Fails if any registered site disagrees with `target`. */
    method Check(sites: seq<SiteRow>, target: string) returns (problems: Option<seq<Problem>>)
      requires forall p :: p in sites ==> p.WellFormed()
      ensures problems == Problems(sites, files, target)
      ensures problems == Some([]) <==>
              AllPresent(sites, files) && forall p :: p in sites ==> UpToDate(p, files, target)
    {
      CheckIsExact(sites, files, target);
      var list: seq<Problem> := [];
      AfterChain([], [], Problems(sites, files, target));
      assert sites[0..] == sites;
      for i := 0 to |sites|
        invariant Problems(sites, files, target) == After(list, Problems(sites[i..], files, target))
      {
        var p := sites[i];
        assert sites[i..][0] == p && sites[i..][1..] == sites[i + 1..];
        if p.relpath !in files {
          return None;
        }
        ghost var rest := Problems(sites[i + 1..], files, target);
        AfterChain(list, SiteProblems(p, files[p.relpath], target), rest);
        var found := FindVersions(p, files[p.relpath]);
        if found == [] {
          list := list + [MatchedNothing(p)];
          continue;
        }
        var stale := set v | v in found && v != target;
        if stale != {} {
          list := list + [Stale(p, stale)];
        } else {
          assert list + [] == list;
        }
      }
      assert list + [] == list;
      problems := Some(list);
    }

    /** Bumps pyproject and every registered site. */
    method Bump(sites: seq<SiteRow>, v: string) returns (outcome: Outcome)
      requires forall p :: p in sites ==> p.WellFormed()
      modifies this
      ensures (outcome, files) == BumpFiles(sites, old(files), v)
    {
      if !Accepts(v) {
        return InvalidVersion;
      }
      if PYPROJECT !in files {
        return Missing(PYPROJECT);
      }
      var text := files[PYPROJECT];
      if ReadVersion(text, true).None? {
        return NoVersionField;
      }
      files := files[PYPROJECT := SetVersion(text, true, v)];
      ghost var start := files;
      for i := 0 to |sites|
        invariant BumpSites(sites[i..], files, v) == BumpSites(sites, start, v)
      {
        var p := sites[i];
        assert sites[i..][0] == p && sites[i..][1..] == sites[i + 1..];
        if p.relpath !in files {
          return Missing(p.relpath);
        }
        var original := files[p.relpath];
        if FindVersions(p, original) == [] {
          RewriteUnmatched(p, original, v);
          assert files[p.relpath := original] == files;
          continue;
        }
        var updated := Rewrite(p, original, v);
        assert files[p.relpath := original] == files;
        if updated != original {
          files := files[p.relpath := updated];
        }
      }
      outcome := Bumped;
    }
  }

  /* ---------- What a bump leaves behind ---------- */

  /** `p` may be rewritten in the same file as every row of `rest`. */
  ghost predicate UnmixedWith(p: SiteRow, rest: seq<SiteRow>) {
    p.WellFormed() &&
    forall j :: 0 <= j < |rest| ==>
      rest[j].WellFormed() && (rest[j].relpath == p.relpath ==> p != rest[j] && Unmixed(p, rest[j]))
  }

  lemma RegistryTail(sites: seq<SiteRow>)
    requires Registry(sites) && sites != []
    ensures Registry(sites[1..]) && UnmixedWith(sites[0], sites[1..])
  {}

  /** Rewriting sites neither adds nor removes files and leaves other files alone; it is
      completed exactly when all files are there. */
  lemma {:induction false} BumpFrame(sites: seq<SiteRow>, files: Files, v: string)
    requires forall p :: p in sites ==> p.WellFormed()
    ensures var (o, after) := BumpSites(sites, files, v);
            after.Keys == files.Keys && (o == Bumped <==> AllPresent(sites, files)) &&
            forall path :: path in files && (forall p :: p in sites ==> p.relpath != path) ==>
              after[path] == files[path]
  {
    if sites != [] && sites[0].relpath !in files {
      assert sites[0] in sites;
    } else if sites != [] {
      var p := sites[0];
      var next := files[p.relpath := Rewrite(p, files[p.relpath], v)];
      BumpFrame(sites[1..], next, v);
      assert next.Keys == files.Keys;
      assert sites == [p] + sites[1..];
    }
  }

  /** Bumping other rows does not change what a row finds. */
  lemma {:induction false} BumpKeepsOthers(p: SiteRow, rest: seq<SiteRow>, files: Files, v: string)
    requires UnmixedWith(p, rest) && Semver(v) && p.relpath in files
    ensures var after := BumpSites(rest, files, v).1;
            p.relpath in after && Found(p, after) == Found(p, files)
  {
    if rest != [] && rest[0].relpath in files {
      var q := rest[0];
      if q.relpath == p.relpath {
        RescanOther(p, q, files[p.relpath], v);
      }
      BumpKeepsOthers(p, rest[1..], files[q.relpath := Rewrite(q, files[q.relpath], v)], v);
    }
  }

  /** After a bump every site finds the new version as often as it found any version before. */
  lemma {:induction false} BumpedSite(sites: seq<SiteRow>, files: Files, v: string, i: nat)
    requires Registry(sites) && AllPresent(sites, files) && Semver(v) && i < |sites|
    ensures var after := BumpSites(sites, files, v).1;
            sites[i].relpath in after && Found(sites[i], after) == Repeat(v, |Found(sites[i], files)|)
  {
    var p := sites[0];
    var next := files[p.relpath := Rewrite(p, files[p.relpath], v)];
    RegistryTail(sites);
    if i == 0 {
      RescanSame(p, files[p.relpath], v);
      BumpKeepsOthers(p, sites[1..], next, v);
    } else {
      assert sites[i] == sites[1..][i - 1];
      LaterRowKept(sites, files, v, i);
      BumpedSite(sites[1..], next, v, i - 1);
    }
  }

  lemma LaterRowKept(sites: seq<SiteRow>, files: Files, v: string, i: nat)
    requires Registry(sites) && AllPresent(sites, files) && Semver(v) && 0 < i < |sites|
    ensures var p := sites[0];
            var next := files[p.relpath := Rewrite(p, files[p.relpath], v)];
            sites[i].relpath in next && Found(sites[i], next) == Found(sites[i], files)
  {
    var p := sites[0];
    if sites[i].relpath == p.relpath {
      assert Unmixed(p, sites[i]);
      RescanOther(sites[i], p, files[p.relpath], v);
    }
  }

  lemma {:induction false} FoundAreVersions(p: SiteRow, s: string)
    requires p.WellFormed()
    ensures forall x :: x in FindVersions(p, s) ==> Semver(x)
    decreases |s|
  {
    if s != "" {
      match HitAt(p, s)
      case Some(h) =>
        HitText(p, s);
        FoundAreVersions(p, s[h.stop..]);
      case None => FoundAreVersions(p, s[1..]);
    }
  }

  lemma AcceptedIsValue(v: string)
    requires Accepts(v)
    ensures IsValue(v)
    ensures Semver(v) <==> v[|v| - 1] != '\n'
  {
    if Semver(v) {
      SemverChars(v);
    } else {
      SemverChars(v[..|v| - 1]);
    }
  }

  /** No file can satisfy the gate for a version with a trailing newline. */
  lemma NewlineNeverPasses(p: SiteRow, files: Files, v: string)
    requires p.WellFormed() && p.relpath in files && Accepts(v) && !Semver(v)
    ensures !UpToDate(p, files, v)
  {
    FoundAreVersions(p, files[p.relpath]);
    var found := Found(p, files);
    if found != [] {
      assert found[0] in found && found[0] != v;
    }
  }

  lemma BumpStart(sites: seq<SiteRow>, files: Files, v: string) returns (start: Files)
    requires Registry(sites) && BumpFiles(sites, files, v).0 == Bumped
    ensures start == files[PYPROJECT := SetVersion(files[PYPROJECT], true, v)] && start.Keys == files.Keys
    ensures AllPresent(sites, files) && AllPresent(sites, start) &&
            BumpFiles(sites, files, v) == BumpSites(sites, start, v)
    ensures forall p :: p in sites ==> start[p.relpath] == files[p.relpath]
    ensures BumpSites(sites, start, v).1.Keys == files.Keys &&
            BumpSites(sites, start, v).1[PYPROJECT] == start[PYPROJECT]
  {
    start := files[PYPROJECT := SetVersion(files[PYPROJECT], true, v)];
    BumpFrame(sites, start, v);
    assert start.Keys == files.Keys;
  }

  /** `bump(v)` and then `check(v)`: pyproject states v, and the gate passes exactly when v has
      no trailing newline and every registered pattern had matched before the bump. */
  lemma BumpThenCheck(sites: seq<SiteRow>, files: Files, v: string)
    requires Registry(sites) && sites != []
    requires BumpFiles(sites, files, v).0 == Bumped
    ensures var after := BumpFiles(sites, files, v).1;
            AllPresent(sites, files) && after.Keys == files.Keys &&
            ReadVersion(after[PYPROJECT], true) == Some(v) &&
            (Problems(sites, after, v) == Some([]) <==>
             Semver(v) && forall p :: p in sites ==> Found(p, files) != [])
  {
    var start := BumpStart(sites, files, v);
    var after := BumpFiles(sites, files, v).1;
    AcceptedIsValue(v);
    ReadAfterSet(files[PYPROJECT], true, v);
    CheckIsExact(sites, after, v);
    assert sites[0] in sites;
    if Semver(v) {
      forall p | p in sites ensures UpToDate(p, after, v) <==> Found(p, files) != [] {
        BumpedRow(sites, start, v, p);
      }
    } else {
      NewlineNeverPasses(sites[0], after, v);
    }
  }

  /** A site is up to date after a bump exactly when it was found before. */
  lemma BumpedRow(sites: seq<SiteRow>, files: Files, v: string, p: SiteRow)
    requires Registry(sites) && AllPresent(sites, files) && Semver(v) && p in sites
    ensures var after := BumpSites(sites, files, v).1;
            p.WellFormed() && p.relpath in after && (UpToDate(p, after, v) <==> Found(p, files) != [])
  {
    var i: nat :| i < |sites| && sites[i] == p;
    BumpedSite(sites, files, v, i);
  }

  /* ---------- The last bump wins ---------- */

  /** Rewriting a row before the others or after them is the same. */
  lemma {:induction false} RowAfterRest(q: SiteRow, rest: seq<SiteRow>, files: Files, v: string, w: string)
    requires UnmixedWith(q, rest) && Accepts(v) && Accepts(w)
    requires q.relpath in files && AllPresent(rest, files)
    ensures var g := BumpSites(rest, files, v).1;
            q.relpath in g &&
            BumpSites(rest, files[q.relpath := Rewrite(q, files[q.relpath], w)], v).1 ==
            g[q.relpath := Rewrite(q, g[q.relpath], w)]
  {
    if rest != [] {
      var p := rest[0];
      assert p in rest;
      RowAfterRest(q, rest[1..], files[p.relpath := Rewrite(p, files[p.relpath], v)], v, w);
      RowsSwap(p, q, files, v, w);
    }
  }

  /** Two rows rewritten in either order. */
  lemma {:induction false} RowsSwap(p: SiteRow, q: SiteRow, files: Files, v: string, w: string)
    requires p.WellFormed() && q.WellFormed() && Accepts(v) && Accepts(w)
    requires p.relpath in files && q.relpath in files
    requires p.relpath == q.relpath ==> q != p && Unmixed(q, p)
    ensures var next := files[p.relpath := Rewrite(p, files[p.relpath], v)];
            var f := files[q.relpath := Rewrite(q, files[q.relpath], w)];
            f[p.relpath := Rewrite(p, f[p.relpath], v)] == next[q.relpath := Rewrite(q, next[q.relpath], w)]
  {
    if p.relpath == q.relpath {
      RewritesCommute(q, p, files[q.relpath], v, w);
    }
  }

  lemma {:induction false} LastSitesWin(sites: seq<SiteRow>, files: Files, v: string, w: string)
    requires Registry(sites) && AllPresent(sites, files) && Semver(v) && Accepts(w)
    ensures BumpSites(sites, BumpSites(sites, files, v).1, w) == BumpSites(sites, files, w)
    decreases |sites|
  {
    if sites != [] {
      var q, rest := sites[0], sites[1..];
      assert q in sites;
      RegistryTail(sites);
      var fv := files[q.relpath := Rewrite(q, files[q.relpath], v)];
      var fw := files[q.relpath := Rewrite(q, files[q.relpath], w)];
      // bumping q to w behind a bump of everything to v is a bump of the rest only
      RowAfterRest(q, rest, fv, v, w);
      LastRewriteWins(q, files[q.relpath], v, w);
      assert fv[q.relpath := Rewrite(q, fv[q.relpath], w)] == fw;
      LastSitesWin(rest, fw, v, w);
    }
  }

  /** Bumping to `v` and then to `w` leaves the files that bumping to `w` alone leaves; in
      particular a second bump to the same version changes nothing. */
  lemma VersionGivesWay(sites: seq<SiteRow>, files: Files, v: string, w: string)
    requires Registry(sites) && BumpFiles(sites, files, v).0 == Bumped && Semver(v) && Accepts(w)
    ensures BumpFiles(sites, BumpFiles(sites, files, v).1, w) == BumpFiles(sites, files, w)
  {
    var start := BumpStart(sites, files, v);
    var after := BumpFiles(sites, files, v).1;
    var text := files[PYPROJECT];
    var goal := files[PYPROJECT := SetVersion(text, true, w)];
    AcceptedIsValue(v);
    ReadAfterSet(text, true, v);
    LastSetWins(text, true, v, w);
    FieldAfterSites(sites, files, SetVersion(text, true, v), SetVersion(text, true, w), v);
    assert AllPresent(sites, goal);
    LastSitesWin(sites, goal, v, w);
  }

  /** Nothing is found, so nothing is rewritten. */
  lemma {:induction false} NothingToBump(sites: seq<SiteRow>, files: Files, v: string)
    requires (forall p :: p in sites ==> p.WellFormed()) && AllPresent(sites, files)
    requires forall p :: p in sites ==> Found(p, files) == []
    ensures BumpSites(sites, files, v) == (Bumped, files)
  {
    if sites != [] {
      var p := sites[0];
      assert p in sites && forall q :: q in sites[1..] ==> q in sites;
      RewriteUnmatched(p, files[p.relpath], v);
      assert files[p.relpath := files[p.relpath]] == files;
      NothingToBump(sites[1..], files, v);
    }
  }

  /** Bumping takes no line break away, and adds none with a proper version. */
  lemma {:induction false} BumpNewlines(sites: seq<SiteRow>, files: Files, v: string, f: string)
    requires (forall p :: p in sites ==> p.WellFormed()) && Accepts(v) && f in files
    ensures f in BumpSites(sites, files, v).1
    ensures Newlines(BumpSites(sites, files, v).1[f]) >= Newlines(files[f])
    ensures Semver(v) ==> Newlines(BumpSites(sites, files, v).1[f]) == Newlines(files[f])
  {
    if sites != [] && sites[0].relpath in files {
      var p := sites[0];
      RewriteNewlines(p, files[p.relpath], v);
      BumpNewlines(sites[1..], files[p.relpath := Rewrite(p, files[p.relpath], v)], v, f);
    }
  }

  /** With a line break in the version, a site that is found gets one more. */
  lemma {:induction false} BumpAddsLine(sites: seq<SiteRow>, files: Files, v: string) returns (f: string)
    requires (forall p :: p in sites ==> p.WellFormed()) && AllPresent(sites, files) && Accepts(v) && !Semver(v)
    requires exists p :: p in sites && Found(p, files) != []
    ensures f in files && f in BumpSites(sites, files, v).1
    ensures Newlines(BumpSites(sites, files, v).1[f]) > Newlines(files[f])
  {
    var p := sites[0];
    var next := files[p.relpath := Rewrite(p, files[p.relpath], v)];
    if Found(p, files) != [] {
      f := p.relpath;
      RewriteNewlines(p, files[f], v);
      BumpNewlines(sites[1..], next, v, f);
    } else {
      RewriteUnmatched(p, files[p.relpath], v);
      assert next == files && sites == [p] + sites[1..];
      f := BumpAddsLine(sites[1..], files, v);
    }
  }

  /** A version with a line break that was written nowhere but in the field leaves no trace. */
  lemma LineGivesWay(sites: seq<SiteRow>, files: Files, v: string, w: string)
    requires Registry(sites) && BumpFiles(sites, files, v).0 == Bumped && Accepts(v) && Accepts(w)
    requires forall p :: p in sites ==> p.relpath in files && Found(p, files) == []
    ensures BumpFiles(sites, BumpFiles(sites, files, v).1, w) == BumpFiles(sites, files, w)
  {
    var start := BumpStart(sites, files, v);
    var text := files[PYPROJECT];
    AcceptedIsValue(v);
    ReadAfterSet(text, true, v);
    LastSetWins(text, true, v, w);
    NothingToBump(sites, start, v);
    assert start[PYPROJECT := SetVersion(start[PYPROJECT], true, w)] == files[PYPROJECT := SetVersion(text, true, w)];
  }

  /** One that was written into a site is never quite removed. */
  lemma LineStays(sites: seq<SiteRow>, files: Files, v: string, w: string)
    requires Registry(sites) && BumpFiles(sites, files, v).0 == Bumped && !Semver(v) && Semver(w)
    requires exists p :: p in sites && p.relpath in files && Found(p, files) != []
    ensures BumpFiles(sites, BumpFiles(sites, files, v).1, w) != BumpFiles(sites, files, w)
  {
    var start := BumpStart(sites, files, v);
    var after := BumpFiles(sites, files, v).1;
    var f := BumpAddsLine(sites, start, v);
    assert f != PYPROJECT && start[f] == files[f];
    AcceptedIsValue(v);
    ReadAfterSet(files[PYPROJECT], true, v);
    BumpNewlines(sites, after[PYPROJECT := SetVersion(after[PYPROJECT], true, w)], w, f);
    BumpNewlines(sites, files[PYPROJECT := SetVersion(files[PYPROJECT], true, w)], w, f);
  }

  /** Bumping to `v` and then to `w` leaves the files that bumping to `w` alone leaves if and only if
      `v` does not end in a line break or no site was found. */
  lemma LastBumpWins(sites: seq<SiteRow>, files: Files, v: string, w: string)
    requires Registry(sites) && BumpFiles(sites, files, v).0 == Bumped && Accepts(w) && (Semver(v) || Semver(w))
    ensures AllPresent(sites, files)
    ensures BumpFiles(sites, BumpFiles(sites, files, v).1, w) == BumpFiles(sites, files, w) <==>
            Semver(v) || forall p :: p in sites ==> Found(p, files) == []
  {
    var start := BumpStart(sites, files, v);
    if Semver(v) {
      VersionGivesWay(sites, files, v, w);
    } else if forall p :: p in sites ==> Found(p, files) == [] {
      LineGivesWay(sites, files, v, w);
    } else {
      LineStays(sites, files, v, w);
    }
  }

  /** Setting the field behind a bump of the sites is setting it before. */
  lemma FieldAfterSites(sites: seq<SiteRow>, files: Files, x: string, y: string, v: string)
    requires Registry(sites) && AllPresent(sites, files)
    ensures BumpSites(sites, files[PYPROJECT := x], v).1[PYPROJECT := y] == BumpSites(sites, files[PYPROJECT := y], v).1
  {
    FieldAside(sites, files[PYPROJECT := x], v, y);
    assert files[PYPROJECT := x][PYPROJECT := y] == files[PYPROJECT := y];
  }

  /** The sites and the pyproject field do not meet. */
  lemma {:induction false} FieldAside(sites: seq<SiteRow>, files: Files, v: string, text: string)
    requires Registry(sites) && AllPresent(sites, files)
    ensures BumpSites(sites, files[PYPROJECT := text], v).1 == BumpSites(sites, files, v).1[PYPROJECT := text]
    decreases |sites|
  {
    if sites != [] {
      var p := sites[0];
      assert p in sites;
      var next := files[p.relpath := Rewrite(p, files[p.relpath], v)];
      var f := files[PYPROJECT := text];
      assert f[p.relpath := Rewrite(p, f[p.relpath], v)] == next[PYPROJECT := text];
      RegistryTail(sites);
      FieldAside(sites[1..], next, v, text);
    }
  }

  /* ---------- The command line ---------- */

  /** `bump_version.py VERSION`: the argument is stripped first. */
  function BumpCommand(files: Files, arg: string): (Outcome, Files) {
    SitesAreRegistry();
    BumpFiles(SITES, files, Strip(arg))
  }

  /** `bump_version.py --check`: None where it raises. */
  function CheckCommand(files: Files): Option<seq<Problem>> {
    SitesAreRegistry();
    if PYPROJECT !in files then None
    else match ReadVersion(files[PYPROJECT], true)
         case None => None
         case Some(target) => Problems(SITES, files, target)
  }

  /** From the command line a completed bump is followed by a passing check exactly when every
      registered pattern had matched beforehand. */
  lemma BumpCommandThenCheck(files: Files, arg: string)
    requires BumpCommand(files, arg).0 == Bumped
    ensures AllPresent(SITES, files)
    ensures (SitesAreRegistry();
             CheckCommand(BumpCommand(files, arg).1) == Some([]) <==>
             forall p :: p in SITES ==> Found(p, files) != [])
  {
    SitesAreRegistry();
    AcceptedIsValue(Strip(arg));
    BumpThenCheck(SITES, files, Strip(arg));
  }

  /** Called directly, `bump` takes any version with a newline after it, such as "1.2.3\n";
      by BumpThenCheck the gate for that version then fails. */
  lemma NewlineSlipsThrough(v: string)
    requires Semver(v)
    ensures Accepts(v + "\n") && !Semver(v + "\n")
  {
    var u := v + "\n";
    assert u[..|u| - 1] == v && u[|u| - 1] == '\n';
    if Semver(u) { SemverChars(u); }
  }

  lemma SampleVersion()
    ensures Semver("1.2.3")
  {
    var v := "1.2.3";
    var a := VersionAtoms();
    var x := [1, 1, 1, 1, 1];
    assert a[1..][1..] == a[2..] && a[2..][1..] == a[3..] && a[3..][1..] == a[4..] && a[4..][1..] == [];
    assert v[1..][..1] == "." && v[3..][..1] == ".";
    assert v[1..][1..] == v[2..] && v[2..][1..] == v[3..] && v[3..][1..] == v[4..];
    RunLengthIs(Digit, v, 1);
    RunLengthIs(Digit, v[2..], 1);
    RunLengthIs(Digit, v[4..], 1);
    assert GreedyFits(a[4..], v[4..], [1]);
    assert GreedyFits(a[3..], v[3..], [1, 1]);
    assert GreedyFits(a[2..], v[2..], [1, 1, 1]);
    assert GreedyFits(a[1..], v[1..], [1, 1, 1, 1]);
    assert GreedyFits(a, v, x);
    PlainVersion();
    PlainMatch(a, v, x);
  }
}
