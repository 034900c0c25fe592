/** Progress of the batch protocol when every run sees the whole store, and how it can be starved. */
module RegenProgress {
  import opened Text
  import opened RegenKeys
  import opened RegenRun
  import opened RegenHistory
  import opened RegenSafety

  /* ---------- What is left to do ---------- */

  /** The manifests with a repo, no sidecar and no ok row. */
  function Todo(s: State): set<string> {
    set k | k in s.store && IsManifestKey(k) && HasRepo(s.store[k]) && !IsOk(s.log, k) && SidecarKey(k) !in s.store
  }

  /** The run is shown the whole store. */
  ghost predicate SeesAll(s: State, r: Run) {
    forall k :: k in r.listing <==> k in s.store
  }

  /** A real, finished run over everything. */
  ghost predicate FullRun(s: State, r: Run) {
    Legal(s, r) && Complete(s, r) && SeesAll(s, r) &&
    !r.opts.force && !r.opts.dryRun && r.opts.only == {}
  }

  lemma {:induction false} CountKeys(ts: seq<Target>)
    requires DistinctKeys(ts)
    ensures |set t | t in ts :: t.key| == |ts|
  {
    if ts != [] {
      CountKeys(ts[1..]);
      var rest := set t | t in ts[1..] :: t.key;
      assert ts == [ts[0]] + ts[1..];
      assert (set t | t in ts :: t.key) == rest + {ts[0].key};
      assert ts[0].key !in rest;
    }
  }

  lemma TodoPends(s: State, r: Run, k: string)
    requires Legal(s, r) && SeesAll(s, r) && !r.opts.force && r.opts.only == {}
    ensures k in Todo(s) <==> Targeted(s, r, k) && PendsAt(s, r, k)
  {
    if IsManifestKey(k) {
      SidecarOfManifest(k);
    }
  }

  /** The pending list holds exactly what is left to do. */
  lemma PendingIsTodo(s: State, r: Run)
    requires Legal(s, r) && SeesAll(s, r) && !r.opts.force && r.opts.only == {}
    ensures (set t | t in PendingIn(s, r.listing, r.opts) :: t.key) == Todo(s)
    ensures |PendingIn(s, r.listing, r.opts)| == |Todo(s)|
    ensures Selected(s, r) <= Todo(s) && |Selected(s, r)| == |Batch(s, r.listing, r.opts)|
  {
    RunSelects(s, r);
    CountKeys(Batch(s, r.listing, r.opts));
    forall k | k in Selected(s, r) ensures k in Todo(s) {
      TodoPends(s, r, k);
    }
    RunTargets(s, r);
    var p := PendingIn(s, r.listing, r.opts);
    CountKeys(p);
    var keys := set t | t in p :: t.key;
    forall k ensures k in keys <==> k in Todo(s) {
      TodoPends(s, r, k);
      if k in Todo(s) {
        assert TargetOf(k, s.store[k]).key == k && TargetOf(k, s.store[k]) in p;
      }
    }
    assert keys == Todo(s);
  }

  /* ---------- Progress ---------- */

  /** Every job ends ok, with a sidecar, and the regenerated manifest still names a repo. */
  ghost predicate AllGood(r: Run) {
    forall o :: o in r.outcomes ==> o.ok && o.sidecar.Some? && o.manifest.Some? && HasRepo(o.manifest.value)
  }

  ghost predicate OkHaveSidecars(s: State) {
    forall k :: IsManifestKey(k) && IsOk(s.log, k) ==> SidecarKey(k) in s.store
  }

  lemma GoodSelected(s: State, r: Run, k: string)
    requires Legal(s, r) && Complete(s, r) && AllGood(r) && IsManifestKey(k)
    ensures k in Selected(s, r) <==> EndedAs(s, r, k, true)
    ensures SidecarKey(k) in Step(s, r).store <==> SidecarKey(k) in s.store || k in Selected(s, r)
  {
    EndedSelected(s, r, k);
    GoodBatch(Batch(s, r.listing, r.opts), r.outcomes, k);
    StoreEffect(s, Done(s, r), SidecarKey(k));
    assert PutCount(Done(s, r), SidecarKey(k)) ==
           if MadeSidecar(Batch(s, r.listing, r.opts), r.outcomes, k) then 1 else 0 by {
      RunSelects(s, r);
      BatchSidecars(Batch(s, r.listing, r.opts), r.outcomes, k);
      PreambleCount(s, r, SidecarKey(k));
    }
  }

  /** When all is well, ending, succeeding and leaving a sidecar are the same. */
  lemma GoodBatch(batch: seq<Target>, outcomes: seq<Outcome>, k: string)
    requires |outcomes| == |batch| && forall o :: o in outcomes ==> o.ok && o.sidecar.Some?
    ensures MadeSidecar(batch, outcomes, k) <==> EndedIn(batch, outcomes, k, true)
    ensures !EndedIn(batch, outcomes, k, false)
  {
    assert forall i :: 0 <= i < |outcomes| ==> outcomes[i] in outcomes;
  }

  /** A manifest in the store after a run was there before. */
  lemma NoNewManifest(s: State, r: Run, k: string)
    requires Legal(s, r) && IsManifestKey(k) && k !in s.store
    ensures k !in Step(s, r).store
  {
    var batch := Batch(s, r.listing, r.opts);
    RunSelects(s, r);
    forall t | t in batch ensures t.key != k && SidecarKey(t.key) != k {
      SidecarOfManifest(t.key);
    }
    NotPut(batch, r.outcomes, k);
    PreambleCount(s, r, k);
    if r.cut < |Writes(s, r)| {
      PrefixCount(Writes(s, r), r.cut, k);
    }
    StoreEffect(s, Done(s, r), k);
  }

  /** A run of good outcomes does exactly what it selected. */
  lemma GoodRun(s: State, r: Run)
    requires FullRun(s, r) && AllGood(r) && OkHaveSidecars(s)
    ensures OkHaveSidecars(Step(s, r))
    ensures Todo(Step(s, r)) == Todo(s) - Selected(s, r)
  {
    var next := Step(s, r);
    forall k | IsManifestKey(k)
      ensures IsOk(next.log, k) ==> SidecarKey(k) in next.store
      ensures k in Todo(next) <==> k in Todo(s) - Selected(s, r)
    {
      GoodSelected(s, r, k);
      OkAfterRun(s, r, k);
      if k !in s.store {
        NoNewManifest(s, r, k);
      } else if k !in Selected(s, r) {
        ManifestUntouched(s, r, k);
      }
    }
  }

  /** One run of batch size b takes n pending manifests to max(0, n - b), which is the
      `remaining_after` it reports. */
  lemma GoodRunCounts(s: State, r: Run)
    requires FullRun(s, r) && AllGood(r) && OkHaveSidecars(s)
    ensures var n, b := |Todo(s)|, r.opts.batchSize;
            |Todo(Step(s, r))| == (if 0 < b < n then n - b else 0)
    ensures |Todo(Step(s, r))| == |PendingIn(s, r.listing, r.opts)| - |Batch(s, r.listing, r.opts)|
  {
    assert Todo(Step(s, r)) == Todo(s) - Selected(s, r) by { GoodRun(s, r); }
    PendingIsTodo(s, r);
    Removed(Todo(s), Selected(s, r));
  }

  lemma Removed(all: set<string>, some: set<string>)
    requires some <= all
    ensures |all - some| == |all| - |some|
  {
    assert all == (all - some) + some;
  }

  ghost predicate GoodRuns(s: State, runs: seq<Run>, b: nat)
    requires LegalHistory(s, runs)
  {
    forall i: nat :: i < |runs| ==> GoodAt(s, runs, b, i)
  }

  ghost predicate GoodAt(s: State, runs: seq<Run>, b: nat, i: nat)
    requires LegalHistory(s, runs) && i < |runs|
  {
    FullRun(At(s, runs, i), runs[i]) && AllGood(runs[i]) && runs[i].opts.batchSize == b
  }

  /** What i batches of b leave of n. */
  function LeftAfter(n: nat, b: nat, i: nat): nat {
    var left := n - i * b;
    if left < 0 then 0 else left
  }

  /** `t` is where `i` good runs lead from `n` manifests. */
  ghost predicate OnTrack(t: State, n: nat, b: nat, i: nat) {
    OkHaveSidecars(t) && |Todo(t)| == LeftAfter(n, b, i)
  }

  lemma GoodStep(t: State, r: Run, n: nat, b: nat, i: nat)
    requires FullRun(t, r) && AllGood(r) && r.opts.batchSize == b && b > 0 && OnTrack(t, n, b, i)
    ensures OnTrack(Step(t, r), n, b, i + 1)
  {
    assert OkHaveSidecars(Step(t, r)) by { GoodRun(t, r); }
    GoodRunCounts(t, r);
    assert (i + 1) * b == i * b + b;
  }

  /** After i runs, i batches are done; ceil(n / b) runs finish everything. */
  lemma FinishesInTime(s: State, runs: seq<Run>, b: nat, i: nat)
    requires LegalHistory(s, runs) && GoodRuns(s, runs, b) && b > 0 && OkHaveSidecars(s) && i <= |runs|
    ensures |Todo(At(s, runs, i))| == (if i * b < |Todo(s)| then |Todo(s)| - i * b else 0)
  {
    TrackAt(s, runs, |Todo(s)|, b, i);
  }

  lemma {:induction false} TrackAt(s: State, runs: seq<Run>, n: nat, b: nat, i: nat)
    requires LegalHistory(s, runs) && GoodRuns(s, runs, b) && b > 0 && OnTrack(s, n, b, 0) && i <= |runs|
    ensures OnTrack(At(s, runs, i), n, b, i)
  {
    var holds := (t: State, j: nat) => OnTrack(t, n, b, j);
    forall j: nat | j < |runs| && holds(At(s, runs, j), j) ensures holds(At(s, runs, j + 1), j + 1) {
      StaysOnTrack(s, runs, n, b, j);
    }
    AlongRuns(s, runs, holds, i);
  }

  lemma StaysOnTrack(s: State, runs: seq<Run>, n: nat, b: nat, j: nat)
    requires LegalHistory(s, runs) && GoodRuns(s, runs, b) && b > 0 && j < |runs| && OnTrack(At(s, runs, j), n, b, j)
    ensures OnTrack(At(s, runs, j + 1), n, b, j + 1)
  {
    assert GoodAt(s, runs, b, j);
    AtStep(s, runs, j);
    GoodStep(At(s, runs, j), runs[j], n, b, j);
  }

  /* ---------- Starvation ---------- */

  lemma {:induction false} SplitConcat(a: seq<Target>, b: seq<Target>, ok: set<string>, sidecars: set<string>,
                                       force: bool, p: bool)
    ensures Split(a + b, ok, sidecars, force, p) == Split(a, ok, sidecars, force, p) + Split(b, ok, sidecars, force, p)
  {
    if a == [] {
      assert a + b == b;
    } else {
      assert (a + b)[1..] == a[1..] + b;
      SplitConcat(a[1..], b, ok, sidecars, force, p);
    }
  }

  /** The keys of `stuck` are pending, all in front of `k`, and at least as many as a batch. */
  ghost predicate Blocked(s: State, r: Run, stuck: set<string>, k: string) {
    Legal(s, r) && !r.opts.force && r.opts.only == {} && 0 < r.opts.batchSize <= |stuck| &&
    exists m :: 0 <= m < |r.listing| && r.listing[m] == k && forall p :: p in stuck ==> p in r.listing[..m]
  }

  /** The pending targets among `a`, the head of the listing. */
  function Front(s: State, r: Run, a: seq<string>): seq<Target>
    requires forall k :: k in a ==> k in s.store
  {
    Split(TargetsIn(s.store, a), OkKeys(s.log), SidecarsIn(r.listing), false, true)
  }

  lemma FrontIsFirst(s: State, r: Run, m: nat)
    requires Legal(s, r) && !r.opts.force && r.opts.only == {} && m <= |r.listing|
    ensures Front(s, r, r.listing[..m]) <= PendingIn(s, r.listing, r.opts)
  {
    var a, c := r.listing[..m], r.listing[m..];
    assert r.listing == a + c;
    TargetsConcat(s.store, a, c);
    SplitConcat(TargetsIn(s.store, a), TargetsIn(s.store, c), OkKeys(s.log), SidecarsIn(r.listing), false, true);
  }

  lemma FrontListed(s: State, r: Run, m: nat, t: Target)
    requires Legal(s, r) && m < |r.listing| && t in Front(s, r, r.listing[..m])
    ensures t.key != r.listing[m]
  {
    TargetsAre(s.store, r.listing[..m]);
    SplitAre(TargetsIn(s.store, r.listing[..m]), OkKeys(s.log), SidecarsIn(r.listing), false, true);
  }

  /** A batch that is full before it comes to `k` does not contain `k`. */
  lemma BlockedNow(s: State, r: Run, stuck: set<string>, k: string)
    requires Blocked(s, r, stuck, k) && stuck <= Todo(s)
    ensures k !in Selected(s, r)
  {
    var m :| 0 <= m < |r.listing| && r.listing[m] == k && forall p :: p in stuck ==> p in r.listing[..m];
    var front, batch := Front(s, r, r.listing[..m]), Batch(s, r.listing, r.opts);
    FrontIsFirst(s, r, m);
    FrontHolds(s, r, r.listing[..m], stuck);
    forall t | t in batch ensures t.key != k {
      var i :| 0 <= i < |batch| && batch[i] == t;
      assert t == front[i];
      FrontListed(s, r, m, t);
    }
  }

  lemma FrontHolds(s: State, r: Run, a: seq<string>, stuck: set<string>)
    requires Legal(s, r) && stuck <= Todo(s) && a <= r.listing && forall p :: p in stuck ==> p in a
    ensures |stuck| <= |Front(s, r, a)|
  {
    var front := Front(s, r, a);
    TargetsAre(s.store, a);
    SplitAre(TargetsIn(s.store, a), OkKeys(s.log), SidecarsIn(r.listing), false, true);
    var keys := set t | t in front :: t.key;
    forall k | k in stuck ensures k in keys {
      var t := TargetOf(k, s.store[k]);
      ClassifyIs(s, r.(opts := r.opts.(force := false)), t);
      assert t in front && t.key == k;
    }
    assert Distinct(a);
    CountKeys(front);
    assert keys == stuck + (keys - stuck);
  }

  /** None of the stuck keys succeeds, gets a sidecar or loses its repo. */
  ghost predicate Failing(s: State, r: Run, stuck: set<string>)
    requires Legal(s, r)
  {
    forall i :: 0 <= i < |r.outcomes| && Batch(s, r.listing, r.opts)[i].key in stuck ==>
      var o := r.outcomes[i];
      !o.ok && o.sidecar.None? && (o.manifest.Some? ==> HasRepo(o.manifest.value))
  }

  /** In every run the stuck keys fill the batch before it comes to `k`, and fail. */
  ghost predicate Starving(s: State, runs: seq<Run>, stuck: set<string>, k: string)
    requires LegalHistory(s, runs)
  {
    forall i: nat :: i < |runs| ==>
      Blocked(At(s, runs, i), runs[i], stuck, k) && Failing(At(s, runs, i), runs[i], stuck)
  }

  /** Failing keys stay pending, however the run ends. */
  lemma StayStuck(s: State, r: Run, stuck: set<string>)
    requires Legal(s, r) && Failing(s, r, stuck) && stuck <= Todo(s)
    ensures stuck <= Todo(Step(s, r))
  {
    forall p | p in stuck ensures p in Todo(Step(s, r)) {
      StayStuckOne(s, r, stuck, p);
    }
  }

  lemma StayStuckOne(s: State, r: Run, stuck: set<string>, p: string)
    requires Legal(s, r) && Failing(s, r, stuck) && p in stuck && p in Todo(s)
    ensures p in Todo(Step(s, r))
  {
    StuckNoSidecar(s, r, stuck, p);
    StuckNotOk(s, r, stuck, p);
    KeepsRepo(s, r, stuck, p);
  }

  lemma StuckNoSidecar(s: State, r: Run, stuck: set<string>, p: string)
    requires Legal(s, r) && Failing(s, r, stuck) && p in stuck && p in Todo(s)
    ensures SidecarKey(p) !in Step(s, r).store
  {
    RunSelects(s, r);
    BatchSidecars(Batch(s, r.listing, r.opts), r.outcomes, p);
    PreambleCount(s, r, SidecarKey(p));
    if r.cut < |Writes(s, r)| { PrefixCount(Writes(s, r), r.cut, SidecarKey(p)); }
    StoreEffect(s, Done(s, r), SidecarKey(p));
  }

  lemma StuckNotOk(s: State, r: Run, stuck: set<string>, p: string)
    requires Legal(s, r) && Failing(s, r, stuck) && p in stuck && p in Todo(s)
    ensures !IsOk(Step(s, r).log, p)
  {
    StatusAfterDone(s, r, p);
    RowsTell(Done(s, r), p);
    assert RowFor(p, WasOk) == Ok(p);
    ManifestNonempty(p);
    if Append(Ok(p)) in Done(s, r) {
      OkMeansSelected(s, r, p);
    }
  }

  lemma KeepsRepo(s: State, r: Run, stuck: set<string>, p: string)
    requires Legal(s, r) && Failing(s, r, stuck) && p in stuck && p in Todo(s)
    ensures p in Step(s, r).store && HasRepo(Step(s, r).store[p])
  {
    forall b | Put(p, b) in Done(s, r) ensures HasRepo(b) {
      PutsOfManifest(s, r, p, b);
    }
    LastPut(s, Done(s, r), p);
  }

  lemma {:induction false} LastPut(s: State, ws: seq<Write>, p: string)
    requires p in s.store && HasRepo(s.store[p]) && forall b :: Put(p, b) in ws ==> HasRepo(b)
    ensures p in ApplyAll(s, ws).store && HasRepo(ApplyAll(s, ws).store[p])
    decreases |ws|
  {
    if ws != [] {
      assert ws[0] in ws && forall w :: w in ws[1..] ==> w in ws;
      LastPut(Apply(s, ws[0]), ws[1..], p);
    }
  }

  /** A blob put at a manifest key is the manifest outcome of that key. */
  lemma PutsOfManifest(s: State, r: Run, p: string, b: Blob)
    requires Legal(s, r) && IsManifestKey(p) && Put(p, b) in Done(s, r)
    ensures exists i ::
              0 <= i < |r.outcomes| && Batch(s, r.listing, r.opts)[i].key == p && r.outcomes[i].manifest == Some(b)
  {
    var batch := Batch(s, r.listing, r.opts);
    assert Put(p, b) in Writes(s, r);
    SkipWritesAre(SkippedIn(s, r.listing, r.opts));
    RunSelects(s, r);
    PutsOfBatch(batch, r.outcomes, p, b);
  }

  lemma {:induction false} PutsOfBatch(batch: seq<Target>, outcomes: seq<Outcome>, p: string, b: Blob)
    requires |outcomes| == |batch| && IsManifestKey(p) && forall t :: t in batch ==> IsManifestKey(t.key)
    requires Put(p, b) in BatchWrites(batch, outcomes)
    ensures exists i :: 0 <= i < |batch| && batch[i].key == p && outcomes[i].manifest == Some(b)
  {
    assert batch[0] in batch;
    SidecarOfManifest(batch[0].key);
    if Put(p, b) in TargetWrites(batch[0], outcomes[0]) {
      assert batch[0].key == p && outcomes[0].manifest == Some(b);
    } else {
      PutsOfBatch(batch[1..], outcomes[1..], p, b);
      var i :| 0 <= i < |batch[1..]| && batch[1..][i].key == p && outcomes[1..][i].manifest == Some(b);
      assert batch[i + 1].key == p && outcomes[i + 1].manifest == Some(b);
    }
  }

  /** The stuck keys are still to be done before every run. */
  lemma StuckAt(s: State, runs: seq<Run>, stuck: set<string>, k: string, i: nat)
    requires LegalHistory(s, runs) && Starving(s, runs, stuck, k) && stuck <= Todo(s) && i <= |runs|
    ensures stuck <= Todo(At(s, runs, i))
  {
    var holds := (t: State, j: nat) => stuck <= Todo(t);
    forall j: nat | j < |runs| && holds(At(s, runs, j), j) ensures holds(At(s, runs, j + 1), j + 1) {
      AtStep(s, runs, j);
      StayStuck(At(s, runs, j), runs[j], stuck);
    }
    AlongRuns(s, runs, holds, i);
  }

  /** If at least a batch of pending keys in front of `k` fails in every run, `k` is never
      selected: a failed key goes back to the front of the queue. */
  lemma FailuresStarve(s: State, runs: seq<Run>, stuck: set<string>, k: string, i: nat)
    requires LegalHistory(s, runs) && Starving(s, runs, stuck, k) && stuck <= Todo(s) && i < |runs|
    ensures Legal(At(s, runs, i), runs[i]) && k !in Selected(At(s, runs, i), runs[i])
  {
    StuckAt(s, runs, stuck, k, i);
    BlockedNow(At(s, runs, i), runs[i], stuck, k);
  }
}
