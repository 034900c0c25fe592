/** What holds over any sequence of runs that can see the sidecars, and what an `ok` row is worth. */
module RegenSafety {
  import opened Text
  import opened RegenKeys
  import opened RegenRun
  import opened RegenHistory

  /* ---------- Rows of a run ---------- */

  ghost predicate EndedAs(s: State, r: Run, k: string, ok: bool)
    requires Legal(s, r)
  {
    EndedIn(Batch(s, r.listing, r.opts), r.outcomes, k, ok)
  }

  ghost predicate EndedIn(batch: seq<Target>, outcomes: seq<Outcome>, k: string, ok: bool)
    requires |outcomes| == |batch|
  {
    exists i :: 0 <= i < |batch| && batch[i].key == k && outcomes[i].ok == ok
  }

  lemma EndedOnce(batch: seq<Target>, outcomes: seq<Outcome>, k: string)
    requires |outcomes| == |batch| && DistinctKeys(batch)
    ensures k in (set t | t in batch :: t.key) <==>
            EndedIn(batch, outcomes, k, true) || EndedIn(batch, outcomes, k, false)
    ensures !(EndedIn(batch, outcomes, k, true) && EndedIn(batch, outcomes, k, false))
  {
    if t :| t in batch && t.key == k {
      var i :| 0 <= i < |batch| && batch[i] == t;
      assert EndedIn(batch, outcomes, k, outcomes[i].ok);
    }
    assert forall i :: 0 <= i < |batch| ==> batch[i] in batch;
  }

  /** A row that a run may write about a key. */
  ghost predicate RowOf(s: State, r: Run, e: Event)
    requires Legal(s, r)
  {
    match e
    case Skip(k) => Targeted(s, r, k) && !PendsAt(s, r, k)
    case Ok(k) => EndedAs(s, r, k, true)
    case Error(k) => EndedAs(s, r, k, false)
    case _ => false
  }

  lemma SkipRows(s: State, r: Run, e: Event)
    requires Legal(s, r)
    ensures Append(e) in SkipWrites(SkippedIn(s, r.listing, r.opts)) <==>
            e.Skip? && Targeted(s, r, e.key) && !PendsAt(s, r, e.key)
  {
    RunTargets(s, r);
    SkipWritesAre(SkippedIn(s, r.listing, r.opts));
    if e.Skip? && Targeted(s, r, e.key) {
      assert TargetOf(e.key, s.store[e.key]).key == e.key;
    }
  }

  lemma {:induction false} ProcessedRows(batch: seq<Target>, outcomes: seq<Outcome>, e: Event)
    requires |outcomes| == |batch| && Says(e).Some?
    ensures Append(e) in BatchWrites(batch, outcomes) <==>
            (e.Ok? && EndedIn(batch, outcomes, e.key, true)) || (e.Error? && EndedIn(batch, outcomes, e.key, false))
  {
    BatchRows(batch, outcomes);
    if e.Ok? && EndedIn(batch, outcomes, e.key, true) {
      var i :| 0 <= i < |batch| && batch[i].key == e.key && outcomes[i].ok;
    }
    if e.Error? && EndedIn(batch, outcomes, e.key, false) {
      var i :| 0 <= i < |batch| && batch[i].key == e.key && !outcomes[i].ok;
    }
  }

  /** The rows of a run that say something are the ones described. */
  lemma RunRows(s: State, r: Run, e: Event)
    requires Legal(s, r) && Says(e).Some?
    ensures Append(e) in Writes(s, r) <==> RowOf(s, r, e)
  {
    SkipRows(s, r, e);
    ProcessedRows(Batch(s, r.listing, r.opts), r.outcomes, e);
  }

  lemma ManifestNonempty(k: string)
    requires IsManifestKey(k)
    ensures k != ""
  {}

  lemma EndedSelected(s: State, r: Run, k: string)
    requires Legal(s, r)
    ensures k in Selected(s, r) <==> EndedAs(s, r, k, true) || EndedAs(s, r, k, false)
    ensures !(EndedAs(s, r, k, true) && EndedAs(s, r, k, false))
    ensures k in Selected(s, r) ==> k != "" && Targeted(s, r, k) && PendsAt(s, r, k)
  {
    RunSelects(s, r);
    EndedOnce(Batch(s, r.listing, r.opts), r.outcomes, k);
    if IsManifestKey(k) {
      ManifestNonempty(k);
    }
  }

  /** An ok row, in a run that may have been killed, is that of a selected key that succeeded. */
  lemma OkMeansSelected(s: State, r: Run, k: string)
    requires Legal(s, r) && k != "" && Append(Ok(k)) in Done(s, r)
    ensures EndedAs(s, r, k, true) && k in Selected(s, r)
  {
    DoneIsWritten(s, r, Append(Ok(k)));
    RunRows(s, r, Ok(k));
    EndedSelected(s, r, k);
  }

  /** What the rows of a run say about a key. */
  lemma RowStatus(s: State, r: Run, k: string)
    requires Legal(s, r)
    ensures StatusOf(EventsOf(Writes(s, r)), k) ==
            if Targeted(s, r, k) && !PendsAt(s, r, k) then Some(WasSkip)
            else if EndedAs(s, r, k, true) then Some(WasOk)
            else if EndedAs(s, r, k, false) then Some(WasError)
            else None
  {
    EndedSelected(s, r, k);
    if k != "" {
      RowsAbout(s, r, k);
      OneWay(Writes(s, r), k, Targeted(s, r, k) && !PendsAt(s, r, k), EndedAs(s, r, k, true), EndedAs(s, r, k, false));
    } else {
      NoEmptyTarget(s, r);
      RowsTell(Writes(s, r), k);
    }
  }

  /** The rows a run writes about a key. */
  lemma RowsAbout(s: State, r: Run, k: string)
    requires Legal(s, r) && k != ""
    ensures Append(Skip(k)) in Writes(s, r) <==> Targeted(s, r, k) && !PendsAt(s, r, k)
    ensures Append(Ok(k)) in Writes(s, r) <==> EndedAs(s, r, k, true)
    ensures Append(Error(k)) in Writes(s, r) <==> EndedAs(s, r, k, false)
  {
    RunRows(s, r, Skip(k));
    RunRows(s, r, Ok(k));
    RunRows(s, r, Error(k));
  }

  lemma NoEmptyTarget(s: State, r: Run)
    requires Legal(s, r)
    ensures !Targeted(s, r, "")
  {
    if Targeted(s, r, "") {
      ManifestNonempty("");
    }
  }

  /** What a run that has finished says about a key: its own row if it wrote one. */
  lemma StatusAfterRun(s: State, r: Run, k: string)
    requires Legal(s, r) && Complete(s, r)
    ensures var after := StatusOf(Step(s, r).log, k);
            if Targeted(s, r, k) && !PendsAt(s, r, k) then after == Some(WasSkip)
            else if EndedAs(s, r, k, true) then after == Some(WasOk)
            else if EndedAs(s, r, k, false) then after == Some(WasError)
            else after == StatusOf(s.log, k)
  {
    LogEffect(s, Writes(s, r));
    StatusConcat(s.log, EventsOf(Writes(s, r)), k);
    RowStatus(s, r, k);
  }

  /** After a finished non-forced run, the ok keys among its targets are exactly the keys that
      succeeded in that run; a dry run leaves none. Other keys keep what they had. */
  lemma OkAfterRun(s: State, r: Run, k: string)
    requires Legal(s, r) && Complete(s, r) && !r.opts.force
    ensures IsOk(Step(s, r).log, k) <==>
            if Targeted(s, r, k) then EndedAs(s, r, k, true) else IsOk(s.log, k)
    ensures r.opts.dryRun && Targeted(s, r, k) ==> !IsOk(Step(s, r).log, k)
  {
    StatusAfterRun(s, r, k);
    EndedSelected(s, r, k);
  }

  /* ---------- What a run writes to the store ---------- */

  lemma PrefixCount(ws: seq<Write>, n: nat, key: string)
    requires n <= |ws|
    ensures PutCount(ws[..n], key) <= PutCount(ws, key)
  {
    assert ws == ws[..n] + ws[n..];
    PutCountConcat(ws[..n], ws[n..], key);
  }

  /** A run, killed or not, writes the sidecar of a key at most once, and only if it selected it. */
  lemma RunSidecars(s: State, r: Run, k: string)
    requires Legal(s, r) && IsManifestKey(k)
    ensures PutCount(Done(s, r), SidecarKey(k)) <= 1
    ensures k !in Selected(s, r) ==> PutCount(Done(s, r), SidecarKey(k)) == 0
  {
    var key := SidecarKey(k);
    var batch := Batch(s, r.listing, r.opts);
    RunSelects(s, r);
    PreambleCount(s, r, key);
    BatchSidecars(batch, r.outcomes, k);
    if k !in Selected(s, r) {
      assert forall i :: 0 <= i < |batch| ==> batch[i] in batch && batch[i].key in Selected(s, r);
    }
    if r.cut < |Writes(s, r)| {
      PrefixCount(Writes(s, r), r.cut, key);
    }
  }

  lemma PreambleCount(s: State, r: Run, key: string)
    requires Legal(s, r)
    ensures PutCount(Writes(s, r), key) == PutCount(BatchWrites(Batch(s, r.listing, r.opts), r.outcomes), key)
  {
    var skips := SkipWrites(SkippedIn(s, r.listing, r.opts));
    SkipWritesAre(SkippedIn(s, r.listing, r.opts));
    PutCountConcat([Append(Preflight)], skips, key);
    PutCountConcat([Append(Preflight)] + skips, BatchWrites(Batch(s, r.listing, r.opts), r.outcomes), key);
  }

  /** A manifest blob changes only if its key was selected: no sidecar is ever written over a
      manifest. */
  lemma ManifestUntouched(s: State, r: Run, k: string)
    requires Legal(s, r) && IsManifestKey(k) && k !in Selected(s, r) && k in s.store
    ensures k in Step(s, r).store && Step(s, r).store[k] == s.store[k]
  {
    var batch := Batch(s, r.listing, r.opts);
    RunSelects(s, r);
    forall t | t in batch ensures t.key != k && SidecarKey(t.key) != k {
      assert t.key in Selected(s, r);
      SidecarOfManifest(t.key);
    }
    NotPut(batch, r.outcomes, k);
    PreambleCount(s, r, k);
    if r.cut < |Writes(s, r)| {
      PrefixCount(Writes(s, r), r.cut, k);
    }
    StoreEffect(s, Done(s, r), k);
  }

  lemma {:induction false} NotPut(batch: seq<Target>, outcomes: seq<Outcome>, k: string)
    requires |outcomes| == |batch|
    requires forall t :: t in batch ==> t.key != k && SidecarKey(t.key) != k
    ensures PutCount(BatchWrites(batch, outcomes), k) == 0
  {
    if batch != [] {
      var t, o := batch[0], outcomes[0];
      assert t in batch;
      PutCountConcat(TargetWrites(t, o), BatchWrites(batch[1..], outcomes[1..]), k);
      NotPut(batch[1..], outcomes[1..], k);
      NotCounted(TargetWrites(t, o), k);
    }
  }

  /* ---------- Sidecars over any history ---------- */

  /** The run can see the sidecar of every manifest it is shown. */
  ghost predicate ShowsSidecars(s: State, r: Run) {
    forall k :: k in r.listing && IsManifestKey(k) && SidecarKey(k) in s.store ==> SidecarKey(k) in r.listing
  }

  /** How many targets stand before that of `k`. */
  function Ahead(ts: seq<Target>, k: string): nat {
    if ts == [] || ts[0].key == k then 0 else 1 + Ahead(ts[1..], k)
  }

  lemma {:induction false} AheadIs(ts: seq<Target>, i: nat)
    requires DistinctKeys(ts) && i < |ts|
    ensures Ahead(ts, ts[i].key) == i
  {
    if i > 0 {
      AheadIs(ts[1..], i - 1);
    }
  }

  /** A real run takes a pending key exactly when fewer than a batch of pending targets stand
      before it. */
  lemma {:induction false} SelectedByPlace(s: State, r: Run, k: string)
    requires Legal(s, r) && !r.opts.dryRun && Targeted(s, r, k) && PendsAt(s, r, k)
    ensures k in Selected(s, r) <==>
            r.opts.batchSize <= 0 || Ahead(PendingIn(s, r.listing, r.opts), k) < r.opts.batchSize
  {
    var p, b := PendingIn(s, r.listing, r.opts), Batch(s, r.listing, r.opts);
    RunTargets(s, r);
    assert TargetOf(k, s.store[k]).key == k;
    var i :| 0 <= i < |p| && p[i] == TargetOf(k, s.store[k]);
    AheadIs(p, i);
    assert forall j :: 0 <= j < |b| ==> b[j] == p[j];
    if i < |b| {
      assert b[i] in b;
    }
  }

  /** A non-forced run selects a key that already has its sidecar only if discovery hides the
      sidecar. A key with a repo whose latest row is not ok is then selected by a real run exactly
      when its sidecar is hidden and fewer than a batch of pending targets stand before it. */
  lemma SelectedDespiteSidecar(s: State, r: Run, k: string)
    requires Legal(s, r) && !r.opts.force && IsManifestKey(k) && SidecarKey(k) in s.store
    ensures k in Selected(s, r) ==> SidecarKey(k) !in r.listing
    ensures Targeted(s, r, k) && HasRepo(s.store[k]) && !IsOk(s.log, k) && !r.opts.dryRun ==>
              (k in Selected(s, r) <==>
               SidecarKey(k) !in r.listing &&
               (r.opts.batchSize <= 0 || Ahead(PendingIn(s, r.listing, r.opts), k) < r.opts.batchSize))
  {
    RunSelects(s, r);
    SidecarOfManifest(k);
    if !r.opts.dryRun && Targeted(s, r, k) && PendsAt(s, r, k) {
      SelectedByPlace(s, r, k);
    }
  }

  ghost predicate Seeing(s: State, runs: seq<Run>)
    requires LegalHistory(s, runs)
  {
    forall i: nat :: i < |runs| ==> !runs[i].opts.force && ShowsSidecars(At(s, runs, i), runs[i])
  }

  lemma SeeingRest(s: State, runs: seq<Run>)
    requires LegalHistory(s, runs) && Seeing(s, runs) && runs != []
    ensures ShowsSidecars(s, runs[0]) && !runs[0].opts.force && Seeing(Step(s, runs[0]), runs[1..])
  {
    assert At(s, runs, 0) == s;
    forall i: nat | i < |runs[1..]|
      ensures !runs[1..][i].opts.force && ShowsSidecars(At(Step(s, runs[0]), runs[1..], i), runs[1..][i])
    {
      assert At(s, runs, i + 1) == At(Step(s, runs[0]), runs[1..], i) && runs[i + 1] == runs[1..][i];
    }
  }

  /** How often the sidecar of `k` is written in a history. */
  function Completions(s: State, runs: seq<Run>, k: string): nat
    requires LegalHistory(s, runs)
    decreases |runs|
  {
    if runs == [] then 0
    else PutCount(Done(s, runs[0]), SidecarKey(k)) + Completions(Step(s, runs[0]), runs[1..], k)
  }

  /** Over any sequence of non-forced runs that see the sidecars - dry or real, of any batch
      size, with any outcomes, killed anywhere - the sidecar of a key is written at most once,
      and never if it was there to begin with. */
  lemma {:induction false} CompletedAtMostOnce(s: State, runs: seq<Run>, k: string)
    requires LegalHistory(s, runs) && Seeing(s, runs) && IsManifestKey(k)
    ensures Completions(s, runs, k) + (if SidecarKey(k) in s.store then 1 else 0) <= 1
    decreases |runs|
  {
    if runs != [] {
      var r := runs[0];
      var next := Step(s, r);
      SeeingRest(s, runs);
      CompletedAtMostOnce(next, runs[1..], k);
      RunSidecars(s, r, k);
      StoreEffect(s, Done(s, r), SidecarKey(k));
      if SidecarKey(k) in s.store {
        SelectedDespiteSidecar(s, r, k);
        RunSelects(s, r);
      }
    }
  }

  /** Nor is a key with a sidecar ever selected again. */
  lemma NeverSelectedAgain(s: State, runs: seq<Run>, i: nat, k: string)
    requires LegalHistory(s, runs) && Seeing(s, runs) && IsManifestKey(k) && SidecarKey(k) in s.store && i < |runs|
    ensures Legal(At(s, runs, i), runs[i]) && k !in Selected(At(s, runs, i), runs[i])
  {
    var holds := (t: State, j: nat) => SidecarKey(k) in t.store;
    forall j: nat | j < |runs| && holds(At(s, runs, j), j) ensures holds(At(s, runs, j + 1), j + 1) {
      AtStep(s, runs, j);
      StoreEffect(At(s, runs, j), Done(At(s, runs, j), runs[j]), SidecarKey(k));
    }
    AlongRuns(s, runs, holds, i);
    AtStep(s, runs, i);
    NotSelectedNow(At(s, runs, i), runs[i], k);
  }

  lemma NotSelectedNow(s: State, r: Run, k: string)
    requires Legal(s, r) && !r.opts.force && ShowsSidecars(s, r) && IsManifestKey(k) && SidecarKey(k) in s.store
    ensures k !in Selected(s, r)
  {
    SelectedDespiteSidecar(s, r, k);
    RunSelects(s, r);
  }

  /* ---------- An ok row lasts for one run ---------- */

  /** A key whose latest row is ok is skipped by the next non-forced run over it; that skip is
      then its latest row, so the run after takes it as pending unless it sees its sidecar. */
  lemma {:induction false} OkLastsOneRun(s: State, r1: Run, r2: Run, k: string)
    requires Legal(s, r1) && Complete(s, r1) && Legal(Step(s, r1), r2)
    requires !r1.opts.force && !r2.opts.force
    requires Targeted(s, r1, k) && Targeted(Step(s, r1), r2, k)
    requires IsOk(s.log, k) && HasRepo(s.store[k])
    ensures k !in Selected(s, r1)
    ensures StatusOf(Step(s, r1).log, k) == Some(WasSkip)
    ensures PendsAt(Step(s, r1), r2, k) <==> SidecarKey(k) !in r2.listing
  {
    RunSelects(s, r1);
    StatusAfterRun(s, r1, k);
    ManifestUntouched(s, r1, k);
    SidecarOfManifest(k);
  }
}
