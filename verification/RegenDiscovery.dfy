/** The batch protocol on top of the discovery service it actually uses, which lists no sidecar. */
module RegenDiscovery {
  import opened RegenKeys
  import opened RegenRun
  import opened RegenHistory
  import opened RegenSafety

  /* ---------- The discovery service ---------- */

  function Keep(objects: seq<string>): seq<string> {
    if objects == [] then []
    else (if Discovered(objects[0]) then [objects[0]] else []) + Keep(objects[1..])
  }

  /** `_discover_by_directory_structure("okh")` over an object listing under the prefix. */
  method Discover(objects: seq<string>) returns (files: seq<string>)
    requires forall k :: k in objects ==> "okh/" <= k
    ensures files == Keep(objects)
  {
    files := [];
    assert objects[0..] == objects;
    for i := 0 to |objects|
      invariant files + Keep(objects[i..]) == Keep(objects)
    {
      assert objects[i..][1..] == objects[i + 1..];
      assert objects[i] in objects;
      assert Keep(objects[i..]) == (if LooksLikeBom(objects[i]) then [] else [objects[i]]) + Keep(objects[i + 1..]);
      if LooksLikeBom(objects[i]) {
        continue;
      }
      files := files + [objects[i]];
    }
  }

  lemma {:induction false} KeepIs(objects: seq<string>)
    ensures forall k :: k in Keep(objects) <==> k in objects && Discovered(k)
    ensures Distinct(objects) ==> Distinct(Keep(objects))
  {
    if objects != [] {
      KeepIs(objects[1..]);
      assert objects == [objects[0]] + objects[1..];
      if Distinct(objects) {
        assert objects[0] !in objects[1..];
        assert forall i :: 0 <= i < |Keep(objects[1..])| ==> Keep(objects[1..])[i] in objects[1..];
      }
    }
  }

  /** It keeps the order of the listing. */
  lemma {:induction false} KeepConcat(a: seq<string>, b: seq<string>)
    ensures Keep(a + b) == Keep(a) + Keep(b)
  {
    if a == [] {
      assert a + b == b;
    } else {
      assert (a + b)[0] == a[0] && (a + b)[1..] == a[1..] + b;
      KeepConcat(a[1..], b);
    }
  }

  /** The run was given what directory discovery finds in the store. */
  ghost predicate ByDirectory(s: State, r: Run) {
    forall k :: k in r.listing <==> k in s.store && Discovered(k)
  }

  /** That is what the loop of the discovery service yields: if the object listing under the prefix
      is complete and free of repeats, so is the listing of the run, but for what it drops. */
  lemma DiscoveredListing(s: State, r: Run, objects: seq<string>)
    requires Distinct(objects) && (forall k :: k in objects <==> k in s.store && "okh/" <= k)
    requires r.listing == Keep(objects)
    ensures ByDirectory(s, r) && Distinct(r.listing) && forall k :: k in r.listing ==> k in s.store
  {
    KeepIs(objects);
  }

  /** Such a run sees no sidecar at all, so nothing is ever classified as `bom_exists`. */
  lemma NoSidecarSeen(s: State, r: Run)
    requires Legal(s, r) && ByDirectory(s, r)
    ensures SidecarsIn(r.listing) == {}
    ensures
      forall c :: c in ClassesOf(Targets(s, r.listing, r.opts), OkKeys(s.log), SidecarsIn(r.listing), r.opts.force)
                  ==> c != BomExists
  {
    forall k | IsSidecarKey(k) ensures k !in r.listing {
      SidecarsHidden(k);
    }
  }

  /** What is done does not stay done: two runs after an ok row the key is pending again,
      whether or not its sidecar exists, and a real run processes it again exactly when fewer than
      a batch of pending targets stand before it. */
  lemma NothingStaysDone(s: State, r1: Run, r2: Run, k: string)
    requires Legal(s, r1) && Complete(s, r1) && Legal(Step(s, r1), r2)
    requires !r1.opts.force && !r2.opts.force
    requires ByDirectory(s, r1) && ByDirectory(Step(s, r1), r2)
    requires Targeted(s, r1, k) && Targeted(Step(s, r1), r2, k)
    requires IsOk(s.log, k) && HasRepo(s.store[k])
    ensures k !in Selected(s, r1) && PendsAt(Step(s, r1), r2, k)
    ensures !r2.opts.dryRun ==>
              (k in Selected(Step(s, r1), r2) <==>
               r2.opts.batchSize <= 0 ||
               Ahead(PendingIn(Step(s, r1), r2.listing, r2.opts), k) < r2.opts.batchSize)
  {
    OkLastsOneRun(s, r1, r2, k);
    SidecarOfManifest(k);
    SidecarsHidden(SidecarKey(k));
    if !r2.opts.dryRun {
      SelectedByPlace(Step(s, r1), r2, k);
    }
  }

  /* ---------- The window ---------- */

  /** The manifests with a repo, in listing order: what `--force` would process. */
  function WithRepo(s: State, r: Run): seq<Target>
    requires Legal(s, r)
  {
    Split(Targets(s, r.listing, r.opts), {}, {}, true, true)
  }

  /** Every ok key is still a discoverable manifest. */
  ghost predicate OkListed(s: State) {
    forall k :: k in OkKeys(s.log) ==> k in s.store && Discovered(k) && IsManifestKey(k)
  }

  /** After a run over all manifests, killed or not, the ok keys are among those it selected, or
      still among the old ones. */
  lemma OkAfterCut(s: State, r: Run)
    requires Legal(s, r) && ByDirectory(s, r) && !r.opts.force && r.opts.only == {} && OkListed(s)
    ensures OkKeys(Step(s, r).log) <= OkKeys(s.log) || OkKeys(Step(s, r).log) <= Selected(s, r)
  {
    var preamble, all, done := Preamble(s, r.listing, r.opts), Writes(s, r), Done(s, r);
    assert preamble == all[..|preamble|] && done == all[..|done|];
    if |done| <= |preamble| {
      forall k | IsOk(Step(s, r).log, k) ensures IsOk(s.log, k) {
        OnlySkips(s, r, k);
      }
    } else {
      forall k | IsOk(Step(s, r).log, k) ensures k in Selected(s, r) {
        OkWasSelected(s, r, k);
      }
    }
  }

  /** A run killed before its first job makes no key ok. */
  lemma OnlySkips(s: State, r: Run, k: string)
    requires Legal(s, r) && Done(s, r) <= Preamble(s, r.listing, r.opts) && IsOk(Step(s, r).log, k)
    ensures IsOk(s.log, k)
  {
    StatusAfterDone(s, r, k);
    RowsTell(Done(s, r), k);
    SkipWritesAre(SkippedIn(s, r.listing, r.opts));
    assert RowFor(k, WasOk) == Ok(k);
    if Append(Ok(k)) in Done(s, r) {
      InPrefix(Done(s, r), Preamble(s, r.listing, r.opts), Append(Ok(k)));
    }
  }

  /** A key that was ok gets a row once all skips are logged. */
  lemma SkipIsLogged(s: State, r: Run, k: string)
    requires Legal(s, r) && ByDirectory(s, r) && !r.opts.force && r.opts.only == {} && OkListed(s)
    requires Preamble(s, r.listing, r.opts) <= Done(s, r) && IsOk(s.log, k)
    ensures k != "" && Append(Skip(k)) in Done(s, r)
  {
    assert k in OkKeys(s.log);
    ManifestNonempty(k);
    SkipRows(s, r, Skip(k));
    assert Append(Skip(k)) in Preamble(s, r.listing, r.opts);
    InPrefix(Preamble(s, r.listing, r.opts), Done(s, r), Append(Skip(k)));
  }

  /** Once all skips are logged, a key can only be ok because this run made it so. */
  lemma OkWasSelected(s: State, r: Run, k: string)
    requires Legal(s, r) && ByDirectory(s, r) && !r.opts.force && r.opts.only == {} && OkListed(s)
    requires Preamble(s, r.listing, r.opts) <= Done(s, r) && IsOk(Step(s, r).log, k)
    ensures k in Selected(s, r)
  {
    assert k != "" && Append(Ok(k)) in Done(s, r) by {
      StatusAfterDone(s, r, k);
      RowsTell(Done(s, r), k);
      assert RowFor(k, WasOk) == Ok(k) && RowFor(k, WasSkip) == Skip(k);
      if IsOk(s.log, k) {
        SkipIsLogged(s, r, k);
      }
    }
    OkMeansSelected(s, r, k);
  }

  lemma InPrefix<T>(a: seq<T>, b: seq<T>, x: T)
    requires a <= b && x in a
    ensures x in b
  {
    var i :| 0 <= i < |a| && a[i] == x;
    assert b[i] == b[..|a|][i];
  }

  lemma {:induction false} FewKeys(ts: seq<Target>)
    ensures |set t | t in ts :: t.key| <= |ts|
  {
    if ts != [] {
      FewKeys(ts[1..]);
      var rest := set t | t in ts[1..] :: t.key;
      assert ts == [ts[0]] + ts[1..];
      assert (set t | t in ts :: t.key) == rest + {ts[0].key};
    }
  }

  lemma FewerOk(small: set<string>, big: set<string>)
    requires small <= big
    ensures |small| <= |big|
  {
    assert big == small + (big - small);
  }

  /** `t` stands in `e` at position `bound` or before. */
  ghost predicate By(e: seq<Target>, t: Target, bound: int) {
    exists j :: 0 <= j < |e| && j <= bound && e[j] == t
  }

  lemma ByLater(e: seq<Target>, first: Target, t: Target, bound: int)
    requires By(e, t, bound)
    ensures By([first] + e, t, bound + 1)
  {
    var j :| 0 <= j < |e| && j <= bound && e[j] == t;
    assert ([first] + e)[j + 1] == t;
  }

  /** Dropping the ok keys moves every pending target forward by at most their number. */
  lemma {:induction false} Shift(ts: seq<Target>, ok: set<string>, i: nat)
    requires DistinctKeys(ts) && i < |Split(ts, ok, {}, false, true)|
    ensures By(Split(ts, {}, {}, true, true), Split(ts, ok, {}, false, true)[i], i + |ok|)
    decreases |ts|
  {
    var t, rest := ts[0], ts[1..];
    var e, p := Split(rest, {}, {}, true, true), Split(rest, ok, {}, false, true);
    if Classify(t, {}, {}, true) != Pending {
      assert Split(ts, {}, {}, true, true) == e && Split(ts, ok, {}, false, true) == p;
      Shift(rest, ok, i);
    } else if t.key in ok {
      assert Split(ts, {}, {}, true, true) == [t] + e && Split(ts, ok, {}, false, true) == p;
      var fewer := ok - {t.key};
      SameSplit(rest, ok, fewer, t.key);
      Shift(rest, fewer, i);
      ByLater(e, t, p[i], i + |fewer|);
    } else {
      assert Split(ts, {}, {}, true, true) == [t] + e && Split(ts, ok, {}, false, true) == [t] + p;
      if i == 0 {
        assert ([t] + e)[0] == ([t] + p)[0];
      } else {
        Shift(rest, ok, i - 1);
        ByLater(e, t, p[i - 1], i - 1 + |ok|);
      }
    }
  }

  lemma {:induction false} SameSplit(ts: seq<Target>, ok: set<string>, fewer: set<string>, k: string)
    requires fewer == ok - {k} && forall t :: t in ts ==> t.key != k
    ensures Split(ts, ok, {}, false, true) == Split(ts, fewer, {}, false, true)
  {
    if ts != [] {
      assert ts[0] in ts && forall t :: t in ts[1..] ==> t in ts;
      SameSplit(ts[1..], ok, fewer, k);
    }
  }

  /** `k` is the key of one of the first `n` targets. */
  ghost predicate AmongFirst(ts: seq<Target>, n: nat, k: string) {
    exists j :: 0 <= j < |ts| && j < n && ts[j].key == k
  }

  /** Every selected key is among the first 2b manifests with a repo. */
  lemma Window(s: State, r: Run, b: nat, k: string)
    requires Legal(s, r) && ByDirectory(s, r) && !r.opts.force
    requires b > 0 && r.opts.batchSize == b && |OkKeys(s.log)| <= b && k in Selected(s, r)
    ensures AmongFirst(WithRepo(s, r), 2 * b, k)
  {
    var batch, p := Batch(s, r.listing, r.opts), PendingIn(s, r.listing, r.opts);
    var i :| 0 <= i < |batch| && batch[i].key == k;
    NoSidecarSeen(s, r);
    RunLooksAt(s, r);
    Shift(Targets(s, r.listing, r.opts), OkKeys(s.log), i);
    var j :| 0 <= j < |WithRepo(s, r)| && j <= i + |OkKeys(s.log)| && WithRepo(s, r)[j] == p[i];
  }

  ghost predicate DirectoryRuns(s: State, runs: seq<Run>, b: nat)
    requires LegalHistory(s, runs)
  {
    forall i: nat :: i < |runs| ==>
      ByDirectory(At(s, runs, i), runs[i]) &&
      !runs[i].opts.force && runs[i].opts.only == {} && runs[i].opts.batchSize == b
  }

  lemma DirectoryStep(s: State, r: Run, b: nat)
    requires Legal(s, r) && ByDirectory(s, r) && !r.opts.force && r.opts.only == {}
    requires b > 0 && r.opts.batchSize == b && OkListed(s) && |OkKeys(s.log)| <= b
    ensures OkListed(Step(s, r)) && |OkKeys(Step(s, r).log)| <= b
  {
    OkAfterCut(s, r);
    RunSelects(s, r);
    forall k | k in s.store ensures k in Step(s, r).store {
      StoreEffect(s, Done(s, r), k);
    }
    var ok := OkKeys(Step(s, r).log);
    if ok <= OkKeys(s.log) {
      FewerOk(ok, OkKeys(s.log));
    } else {
      FewKeys(Batch(s, r.listing, r.opts));
      FewerOk(ok, Selected(s, r));
    }
  }

  /** With directory discovery and a batch size b, no sequence of runs - dry or real, whatever
      the outcomes, killed anywhere - ever processes a manifest beyond the first 2b that have a
      repo, even if every single job succeeds. */
  lemma {:induction false} NeverPastTwoBatches(s: State, runs: seq<Run>, b: nat, i: nat)
    requires LegalHistory(s, runs) && DirectoryRuns(s, runs, b) && b > 0
    requires OkListed(s) && |OkKeys(s.log)| <= b && i < |runs|
    ensures var si := At(s, runs, i);
            Legal(si, runs[i]) &&
            forall k :: k in Selected(si, runs[i]) ==> AmongFirst(WithRepo(si, runs[i]), 2 * b, k)
  {
    var holds := (t: State, j: nat) => OkListed(t) && |OkKeys(t.log)| <= b;
    forall j: nat | j < |runs| && holds(At(s, runs, j), j) ensures holds(At(s, runs, j + 1), j + 1) {
      AtStep(s, runs, j);
      DirectoryStep(At(s, runs, j), runs[j], b);
    }
    AlongRuns(s, runs, holds, i);
    AtStep(s, runs, i);
    forall k | k in Selected(At(s, runs, i), runs[i])
      ensures AmongFirst(WithRepo(At(s, runs, i), runs[i]), 2 * b, k)
    {
      Window(At(s, runs, i), runs[i], b, k);
    }
  }
}
