/** What the gate reports and how a bump ends, in terms of the files. */
module BumpReport {
  import opened Text
  import opened Regex
  import opened VersionSites
  import opened VersionScan
  import opened PyprojectField
  import opened PyprojectSpan
  import opened BumpVersion

  /* ---------- The gate ---------- */

  /** The problem of a site that is not up to date: it is not found, or it states other versions. */
  ghost predicate IsProblem(problem: Problem, p: SiteRow, files: Files, target: string)
    requires p.WellFormed() && p.relpath in files
  {
    if Found(p, files) == [] then problem == MatchedNothing(p)
    else problem == Stale(p, set v | v in Found(p, files) && v != target)
  }

  /** The sites at these places, in registry order, are those that are not up to date, and these are
      their problems. */
  ghost predicate Reports(list: seq<Problem>, at: seq<nat>, sites: seq<SiteRow>, files: Files, target: string)
    requires (forall p :: p in sites ==> p.WellFormed()) && AllPresent(sites, files)
  {
    |at| == |list| && (forall k, l :: 0 <= k < l < |at| ==> at[k] < at[l]) &&
    (forall k :: 0 <= k < |at| ==> at[k] < |sites| && IsProblem(list[k], sites[at[k]], files, target)) &&
    forall i :: 0 <= i < |sites| ==> (i in at <==> !UpToDate(sites[i], files, target))
  }

  /** The gate reports every site that is not up to date, once, in registry order. */
  lemma {:induction false} ProblemsAre(sites: seq<SiteRow>, files: Files, target: string) returns (at: seq<nat>)
    requires (forall p :: p in sites ==> p.WellFormed()) && AllPresent(sites, files)
    ensures Problems(sites, files, target).Some?
    ensures Reports(Problems(sites, files, target).value, at, sites, files, target)
  {
    if sites == [] {
      at := [];
    } else {
      var p, rest := sites[0], sites[1..];
      assert sites == [p] + rest;
      var more := ProblemsAre(rest, files, target);
      SiteProblemIs(p, files, target);
      at := (if UpToDate(p, files, target) then [] else [0]) + Later(more);
      FirstReport(Problems(rest, files, target).value, more, sites, files, target);
    }
  }

  function Later(at: seq<nat>): (r: seq<nat>)
    ensures |r| == |at| && forall k :: 0 <= k < |r| ==> r[k] == at[k] + 1
  {
    seq(|at|, k requires 0 <= k < |at| => at[k] + 1)
  }

  lemma SiteProblemIs(p: SiteRow, files: Files, target: string)
    requires p.WellFormed() && p.relpath in files
    ensures var list := SiteProblems(p, files[p.relpath], target);
            if UpToDate(p, files, target) then list == []
            else |list| == 1 && IsProblem(list[0], p, files, target)
  {
    NoSiteProblems(p, files, target);
  }

  lemma FirstReport(list: seq<Problem>, more: seq<nat>, sites: seq<SiteRow>, files: Files, target: string)
    requires sites != [] && (forall p :: p in sites ==> p.WellFormed()) && AllPresent(sites, files)
    requires Reports(list, more, sites[1..], files, target)
    ensures var p := sites[0];
            var at := (if UpToDate(p, files, target) then [] else [0]) + Later(more);
            Reports(SiteProblems(p, files[p.relpath], target) + list, at, sites, files, target)
  {
    var p, rest := sites[0], sites[1..];
    var at := (if UpToDate(p, files, target) then [] else [0]) + Later(more);
    SiteProblemIs(p, files, target);
    assert forall i :: 0 <= i < |rest| ==> rest[i] == sites[i + 1];
    forall i | 0 <= i < |sites| ensures i in at <==> !UpToDate(sites[i], files, target) {
      if i > 0 {
        LaterHas(more, i - 1);
        assert i - 1 in more <==> !UpToDate(rest[i - 1], files, target);
      }
    }
    FrontReport(list, more, sites, files, target);
  }

  lemma FrontReport(list: seq<Problem>, more: seq<nat>, sites: seq<SiteRow>, files: Files, target: string)
    requires sites != [] && (forall p :: p in sites ==> p.WellFormed()) && AllPresent(sites, files)
    requires |more| == |list| && forall k, l :: 0 <= k < l < |more| ==> more[k] < more[l]
    requires forall k :: 0 <= k < |more| ==>
               more[k] < |sites[1..]| && IsProblem(list[k], sites[1..][more[k]], files, target)
    ensures var p := sites[0];
            var at := (if UpToDate(p, files, target) then [] else [0]) + Later(more);
            var all := SiteProblems(p, files[p.relpath], target) + list;
            |at| == |all| && (forall k, l :: 0 <= k < l < |at| ==> at[k] < at[l]) &&
            forall k :: 0 <= k < |at| ==> at[k] < |sites| && IsProblem(all[k], sites[at[k]], files, target)
  {
    SiteProblemIs(sites[0], files, target);
  }

  lemma LaterHas(at: seq<nat>, i: nat)
    ensures i + 1 in Later(at) <==> i in at
  {
    if i in at {
      var k :| 0 <= k < |at| && at[k] == i;
      assert Later(at)[k] == i + 1;
    }
  }

  /* ---------- How a bump ends ---------- */

  /** The path of the first registered site whose file is missing. */
  ghost predicate FirstMissing(sites: seq<SiteRow>, files: Files, i: nat) {
    i < |sites| && sites[i].relpath !in files && forall j :: 0 <= j < i ==> sites[j].relpath in files
  }

  lemma {:induction false} SitesMissing(sites: seq<SiteRow>, files: Files, v: string, i: nat)
    requires (forall p :: p in sites ==> p.WellFormed()) && FirstMissing(sites, files, i)
    ensures BumpSites(sites, files, v) == (Missing(sites[i].relpath), BumpSites(sites[..i], files, v).1)
    decreases |sites|
  {
    if i > 0 {
      var p := sites[0];
      var next := files[p.relpath := Rewrite(p, files[p.relpath], v)];
      assert sites[..i][1..] == sites[1..][..i - 1];
      assert forall j :: 0 <= j < i - 1 ==> sites[1..][j] == sites[j + 1];
      SitesMissing(sites[1..], next, v, i - 1);
    }
  }

  /** Before anything is written a bump is refused for a version that is not accepted, for a missing
      pyproject.toml and for one without a version field. */
  lemma {:induction false} BumpRefused(sites: seq<SiteRow>, files: Files, v: string)
    requires Registry(sites)
    ensures !Accepts(v) ==> BumpFiles(sites, files, v) == (InvalidVersion, files)
    ensures Accepts(v) && PYPROJECT !in files ==> BumpFiles(sites, files, v) == (Missing(PYPROJECT), files)
    ensures Accepts(v) && PYPROJECT in files && NoneBefore(files[PYPROJECT], |files[PYPROJECT]|) ==>
              BumpFiles(sites, files, v) == (NoVersionField, files)
  {
    if PYPROJECT in files {
      ReadsIfThere(files[PYPROJECT]);
    }
  }

  /** Otherwise it is completed exactly when all registered files are there. */
  lemma {:induction false} BumpCompleted(sites: seq<SiteRow>, files: Files, v: string)
    requires Registry(sites) && Accepts(v) && PYPROJECT in files && !NoneBefore(files[PYPROJECT], |files[PYPROJECT]|)
    ensures BumpFiles(sites, files, v).0 == Bumped <==> AllPresent(sites, files)
  {
    ReadsIfThere(files[PYPROJECT]);
    BumpFrame(sites, files[PYPROJECT := SetVersion(files[PYPROJECT], true, v)], v);
  }

  /** The first registered file that is missing stops it, behind all sites in front. */
  lemma {:induction false} BumpStopped(sites: seq<SiteRow>, files: Files, v: string, i: nat)
    requires Registry(sites) && Accepts(v) && PYPROJECT in files && !NoneBefore(files[PYPROJECT], |files[PYPROJECT]|)
    requires FirstMissing(sites, files, i)
    ensures BumpFiles(sites, files, v) == (Missing(sites[i].relpath), BumpFiles(sites[..i], files, v).1)
  {
    var start := files[PYPROJECT := SetVersion(files[PYPROJECT], true, v)];
    ReadsIfThere(files[PYPROJECT]);
    assert FirstMissing(sites, start, i);
    SitesMissing(sites, start, v, i);
  }

  /** A completed bump replaces the first version field of pyproject.toml, and nothing else of it: what
      stands in front of its `version` and behind its closing quote is kept. */
  lemma {:induction false} PyprojectAfterBump(sites: seq<SiteRow>, files: Files, v: string)
    returns (m: nat, i: nat, j: nat, e: nat)
    requires Registry(sites) && BumpFiles(sites, files, v).0 == Bumped
    ensures PYPROJECT in files && PYPROJECT in BumpFiles(sites, files, v).1
    ensures var s := files[PYPROJECT];
            m < |s| && LineStart(s, m) && NoneBefore(s, m) && IsField(s[m..], i, j, e) && m + e < |s| &&
            BumpFiles(sites, files, v).1[PYPROJECT] == s[..m] + ("version = \"" + v + "\"") + s[m + e + 1..]
  {
    var start := BumpStart(sites, files, v);
    m, i, j, e := SetSpan(files[PYPROJECT], v);
  }
}
