/** Sequences of runs, any of which may be killed between two of its writes. */
module RegenHistory {
  import opened Text
  import opened RegenKeys
  import opened RegenRun

  /** A run and its surroundings: what discovery lists, how processing ends for each selected
      target, and after how many writes the process is killed, if before the end. */
  datatype Run = Run(listing: seq<string>, opts: Options, outcomes: seq<Outcome>, cut: nat)

  ghost predicate Distinct(xs: seq<string>) {
    forall i, j :: 0 <= i < j < |xs| ==> xs[i] != xs[j]
  }

  ghost predicate Legal(s: State, r: Run) {
    Distinct(r.listing) &&
    (forall k :: k in r.listing ==> k in s.store) &&
    |r.outcomes| == |Batch(s, r.listing, r.opts)| &&
    forall o :: o in r.outcomes ==> o.Possible()
  }

  function Writes(s: State, r: Run): seq<Write>
    requires Legal(s, r)
  {
    RunWrites(s, r.listing, r.opts, r.outcomes)
  }

  /** The writes that happen. */
  function Done(s: State, r: Run): seq<Write>
    requires Legal(s, r)
  {
    if r.cut < |Writes(s, r)| then Writes(s, r)[..r.cut] else Writes(s, r)
  }

  function Step(s: State, r: Run): State
    requires Legal(s, r)
  {
    ApplyAll(s, Done(s, r))
  }

  ghost predicate Complete(s: State, r: Run)
    requires Legal(s, r)
  {
    |Writes(s, r)| <= r.cut
  }

  /** The keys a run sets out to process. */
  function Selected(s: State, r: Run): set<string>
    requires Legal(s, r)
  {
    set t | t in Batch(s, r.listing, r.opts) :: t.key
  }

  ghost predicate LegalHistory(s: State, runs: seq<Run>)
    decreases |runs|
  {
    runs == [] || (Legal(s, runs[0]) && LegalHistory(Step(s, runs[0]), runs[1..]))
  }

  /** The state before run `i`. */
  function At(s: State, runs: seq<Run>, i: nat): State
    requires LegalHistory(s, runs) && i <= |runs|
    decreases |runs|
  {
    if i == 0 then s else At(Step(s, runs[0]), runs[1..], i - 1)
  }

  lemma {:induction false} AtStep(s: State, runs: seq<Run>, i: nat)
    requires LegalHistory(s, runs) && i < |runs|
    ensures Legal(At(s, runs, i), runs[i]) && At(s, runs, i + 1) == Step(At(s, runs, i), runs[i])
    decreases |runs|
  {
    if i > 0 {
      AtStep(Step(s, runs[0]), runs[1..], i - 1);
    }
  }

  /** What holds before the first run and is kept by every run holds before every run. */
  lemma {:induction false} AlongRuns(s: State, runs: seq<Run>, holds: (State, nat) -> bool, i: nat)
    requires LegalHistory(s, runs) && holds(s, 0) && i <= |runs|
    requires forall j: nat :: j < |runs| && holds(At(s, runs, j), j) ==> holds(At(s, runs, j + 1), j + 1)
    ensures holds(At(s, runs, i), i)
  {
    if i > 0 {
      AlongRuns(s, runs, holds, i - 1);
    }
  }

  /* ---------- Targets of a run ---------- */

  ghost predicate DistinctKeys(ts: seq<Target>) {
    forall i, j :: 0 <= i < j < |ts| ==> ts[i].key != ts[j].key
  }

  lemma {:induction false} TargetsAre(store: map<string, Blob>, listing: seq<string>)
    requires forall k :: k in listing ==> k in store
    ensures forall t :: t in TargetsIn(store, listing) <==>
              t.key in listing && IsManifestKey(t.key) && t == TargetOf(t.key, store[t.key])
    ensures Distinct(listing) ==> DistinctKeys(TargetsIn(store, listing))
  {
    if listing != [] {
      var rest := TargetsIn(store, listing[1..]);
      TargetsAre(store, listing[1..]);
      assert listing == [listing[0]] + listing[1..];
      if Distinct(listing) {
        forall t | t in rest ensures t.key != listing[0] {
          assert t.key in listing[1..];
        }
        PutInFront(TargetOf(listing[0], store[listing[0]]), rest);
      }
    }
  }

  lemma PutInFront(t: Target, rest: seq<Target>)
    requires DistinctKeys(rest) && forall u :: u in rest ==> u.key != t.key
    ensures DistinctKeys([t] + rest)
  {
    assert forall i :: 0 <= i < |rest| ==> rest[i] in rest;
  }

  lemma {:induction false} OnlyAre(ts: seq<Target>, only: set<string>)
    ensures forall t :: t in Only(ts, only) <==> t in ts && (only == {} || t.key in only)
    ensures DistinctKeys(ts) ==> DistinctKeys(Only(ts, only))
  {
    if ts != [] && only != {} {
      OnlyAre(ts[1..], only);
      assert ts == [ts[0]] + ts[1..];
      var rest := Only(ts[1..], only);
      assert forall i :: 0 <= i < |rest| ==> rest[i] in ts[1..];
    }
  }

  lemma {:induction false} SplitAre(ts: seq<Target>, ok: set<string>, sidecars: set<string>, force: bool, p: bool)
    ensures forall t :: t in Split(ts, ok, sidecars, force, p) <==>
              t in ts && (Classify(t, ok, sidecars, force) == Pending) == p
    ensures DistinctKeys(ts) ==> DistinctKeys(Split(ts, ok, sidecars, force, p))
  {
    if ts != [] {
      SplitAre(ts[1..], ok, sidecars, force, p);
      assert ts == [ts[0]] + ts[1..];
      var rest := Split(ts[1..], ok, sidecars, force, p);
      assert forall i :: 0 <= i < |rest| ==> rest[i] in ts[1..];
    }
  }

  /** A manifest that a run looks at. */
  predicate Targeted(s: State, r: Run, k: string) {
    k in r.listing && IsManifestKey(k) && (r.opts.only == {} || k in r.opts.only)
  }

  /** When a run puts a target on its pending list. */
  predicate PendsAt(s: State, r: Run, k: string)
    requires k in s.store
  {
    HasRepo(s.store[k]) &&
    (r.opts.force || (!IsOk(s.log, k) && SidecarKey(k) !in SidecarsIn(r.listing)))
  }

  lemma ClassifyIs(s: State, r: Run, t: Target)
    requires t.key in s.store && t == TargetOf(t.key, s.store[t.key])
    ensures Classify(t, OkKeys(s.log), SidecarsIn(r.listing), r.opts.force) == Pending <==> PendsAt(s, r, t.key)
  {
    match s.store[t.key]
    case Broken =>
    case Json(raw) => StripTwice(raw);
  }

  /** What a run looks at. */
  lemma RunLooksAt(s: State, r: Run)
    requires Legal(s, r)
    ensures var ts := Targets(s, r.listing, r.opts);
            DistinctKeys(ts) &&
            forall t :: t in ts <==> Targeted(s, r, t.key) && t == TargetOf(t.key, s.store[t.key])
  {
    TargetsAre(s.store, r.listing);
    OnlyAre(TargetsIn(s.store, r.listing), r.opts.only);
  }

  /** The pending and the skipped targets of a run. */
  lemma RunTargets(s: State, r: Run)
    requires Legal(s, r)
    ensures var p := PendingIn(s, r.listing, r.opts);
            DistinctKeys(p) &&
            forall t :: t in p <==>
                        Targeted(s, r, t.key) && t == TargetOf(t.key, s.store[t.key]) && PendsAt(s, r, t.key)
    ensures var q := SkippedIn(s, r.listing, r.opts);
            forall t :: t in q <==>
                        Targeted(s, r, t.key) && t == TargetOf(t.key, s.store[t.key]) && !PendsAt(s, r, t.key)
  {
    var ts := Targets(s, r.listing, r.opts);
    RunLooksAt(s, r);
    SplitAre(ts, OkKeys(s.log), SidecarsIn(r.listing), r.opts.force, true);
    SplitAre(ts, OkKeys(s.log), SidecarsIn(r.listing), r.opts.force, false);
    forall t | t in ts
      ensures Classify(t, OkKeys(s.log), SidecarsIn(r.listing), r.opts.force) == Pending <==> PendsAt(s, r, t.key)
    {
      ClassifyIs(s, r, t);
    }
  }

  /** A run selects pending targets only; they are manifests with distinct keys. */
  lemma RunSelects(s: State, r: Run)
    requires Legal(s, r)
    ensures var b := Batch(s, r.listing, r.opts);
            DistinctKeys(b) &&
            forall t :: t in b ==> IsManifestKey(t.key) && t.key in s.store && t == TargetOf(t.key, s.store[t.key])
    ensures forall k :: k in Selected(s, r) ==> Targeted(s, r, k) && PendsAt(s, r, k)
    ensures !r.opts.dryRun && (r.opts.batchSize <= 0 || |PendingIn(s, r.listing, r.opts)| <= r.opts.batchSize) ==>
              forall k :: Targeted(s, r, k) && PendsAt(s, r, k) ==> k in Selected(s, r)
  {
    var b, p := Batch(s, r.listing, r.opts), PendingIn(s, r.listing, r.opts);
    RunTargets(s, r);
    assert forall i :: 0 <= i < |b| ==> b[i] == p[i];
    if b == p {
      forall k | Targeted(s, r, k) && PendsAt(s, r, k) ensures k in Selected(s, r) {
        var t := TargetOf(k, s.store[k]);
        assert t.key == k && t in b;
      }
    }
  }

  /* ---------- Effects of writes ---------- */

  function EventsOf(ws: seq<Write>): seq<Event> {
    if ws == [] then []
    else (if ws[0].Append? then [ws[0].event] else []) + EventsOf(ws[1..])
  }

  /** How often `key` is written. */
  function PutCount(ws: seq<Write>, key: string): nat {
    if ws == [] then 0
    else (if ws[0].Put? && ws[0].key == key then 1 else 0) + PutCount(ws[1..], key)
  }

  lemma {:induction false} EventsAre(ws: seq<Write>)
    ensures forall e :: e in EventsOf(ws) <==> Append(e) in ws
  {
    if ws != [] {
      EventsAre(ws[1..]);
      assert ws == [ws[0]] + ws[1..];
    }
  }

  /** The log is extended by the appended rows. */
  lemma {:induction false} LogEffect(s: State, ws: seq<Write>)
    ensures ApplyAll(s, ws).log == s.log + EventsOf(ws)
    decreases |ws|
  {
    if ws == [] {
      assert s.log + [] == s.log;
    } else {
      LogEffect(Apply(s, ws[0]), ws[1..]);
      var added := if ws[0].Append? then [ws[0].event] else [];
      assert Apply(s, ws[0]).log == s.log + added by { Reassociate(s.log, [], []); }
      Reassociate(s.log, added, EventsOf(ws[1..]));
    }
  }

  lemma Reassociate(a: seq<Event>, b: seq<Event>, c: seq<Event>)
    ensures a + b + c == a + (b + c)
    ensures a + [] == a
  {}

  /** Keys are only added to the store, and a key that is not written keeps its blob. */
  lemma {:induction false} StoreEffect(s: State, ws: seq<Write>, k: string)
    ensures k in ApplyAll(s, ws).store <==> k in s.store || PutCount(ws, k) > 0
    ensures k in s.store && PutCount(ws, k) == 0 ==> ApplyAll(s, ws).store[k] == s.store[k]
    decreases |ws|
  {
    if ws != [] {
      StoreEffect(Apply(s, ws[0]), ws[1..], k);
    }
  }

  /** A row for every target, with how its job ended. */
  function RowsOf(batch: seq<Target>, outcomes: seq<Outcome>): (r: seq<Row>)
    requires |outcomes| == |batch|
    ensures |r| == |batch| && forall i :: 0 <= i < |r| ==> r[i] == Row(batch[i].key, outcomes[i].ok)
  {
    seq(|batch|, i requires 0 <= i < |batch| => Row(batch[i].key, outcomes[i].ok))
  }

  lemma FirstRow(tracker: seq<Row>, batch: seq<Target>, outcomes: seq<Outcome>)
    requires batch != [] && |outcomes| == |batch|
    ensures tracker + [Row(batch[0].key, outcomes[0].ok)] + RowsOf(batch[1..], outcomes[1..]) ==
            tracker + RowsOf(batch, outcomes)
  {
    assert RowsOf(batch, outcomes) == [Row(batch[0].key, outcomes[0].ok)] + RowsOf(batch[1..], outcomes[1..]);
  }

  /** The tracker is extended by one row for every selected target, in order, that says how it ended. */
  lemma {:induction false} TrackerEffect(s: State, batch: seq<Target>, outcomes: seq<Outcome>)
    requires |outcomes| == |batch|
    ensures ApplyAll(s, BatchWrites(batch, outcomes)).tracker ==
            s.tracker + RowsOf(batch, outcomes)
    decreases |batch|
  {
    if batch != [] {
      var first, rest := TargetWrites(batch[0], outcomes[0]), BatchWrites(batch[1..], outcomes[1..]);
      ApplyConcat(s, first, rest);
      TargetTracked(s, batch[0], outcomes[0]);
      TrackerEffect(ApplyAll(s, first), batch[1..], outcomes[1..]);
      FirstRow(s.tracker, batch, outcomes);
    }
  }

  lemma TargetTracked(s: State, t: Target, o: Outcome)
    ensures ApplyAll(s, TargetWrites(t, o)).tracker == s.tracker + [Row(t.key, o.ok)]
  {
    var front := [Append(Start(t.key))] + ManifestWrites(t, o) + SidecarWrites(t, o);
    var last := Append(if o.ok then Ok(t.key) else Error(t.key));
    assert TargetWrites(t, o) == front + [last] + [Track(Row(t.key, o.ok))];
    NotTracked(s, front + [last]);
    ApplyLast(s, front + [last], Track(Row(t.key, o.ok)));
  }

  lemma {:induction false} NotTracked(s: State, ws: seq<Write>)
    requires forall w :: w in ws ==> !w.Track?
    ensures ApplyAll(s, ws).tracker == s.tracker
    decreases |ws|
  {
    if ws != [] {
      assert ws[0] in ws && forall w :: w in ws[1..] ==> w in ws;
      NotTracked(Apply(s, ws[0]), ws[1..]);
    }
  }

  /** A finished run adds to the tracker a row for each key it selected, with how its job ended. */
  lemma {:induction false} RunTracked(s: State, r: Run)
    requires Legal(s, r) && Complete(s, r)
    ensures var batch := Batch(s, r.listing, r.opts);
            Step(s, r).tracker ==
            s.tracker + RowsOf(batch, r.outcomes)
  {
    var preamble, batch := Preamble(s, r.listing, r.opts), Batch(s, r.listing, r.opts);
    ApplyConcat(s, preamble, BatchWrites(batch, r.outcomes));
    SkipWritesAre(SkippedIn(s, r.listing, r.opts));
    NotTracked(s, preamble);
    TrackerEffect(ApplyAll(s, preamble), batch, r.outcomes);
  }

  lemma {:induction false} PutCountConcat(a: seq<Write>, b: seq<Write>, key: string)
    ensures PutCount(a + b, key) == PutCount(a, key) + PutCount(b, key)
  {
    if a == [] {
      assert a + b == b;
    } else {
      assert (a + b)[1..] == a[1..] + b;
      PutCountConcat(a[1..], b, key);
    }
  }

  /** A status stems from a row. */
  lemma {:induction false} StatusWitness(log: seq<Event>, k: string)
    ensures StatusOf(log, k).Some? ==> exists e :: e in log && Says(e) == Some((k, StatusOf(log, k).value))
    ensures forall e :: e in log && Says(e).Some? && Says(e).value.0 == k ==> StatusOf(log, k).Some?
  {
    if log != [] {
      var front, last := log[..|log| - 1], log[|log| - 1];
      StatusWitness(front, k);
      assert log == front + [last];
    }
  }

  /** The row that gives a key its status. */
  function RowFor(k: string, status: Status): Event {
    match status
    case WasOk => Ok(k)
    case WasError => Error(k)
    case WasSkip => Skip(k)
  }

  /** The status that appended rows give a key is that of one of them, and they give it one if any
      of them names it. */
  lemma RowsTell(ws: seq<Write>, k: string)
    ensures var own := StatusOf(EventsOf(ws), k);
            (own.Some? ==> k != "" && Append(RowFor(k, own.value)) in ws) &&
            forall st :: k != "" && Append(RowFor(k, st)) in ws ==> own.Some?
  {
    EventsAre(ws);
    StatusWitness(EventsOf(ws), k);
    assert forall st :: k != "" ==> Says(RowFor(k, st)) == Some((k, st));
  }

  /** The status that rows give a key which they name in one way only. */
  lemma {:induction false} OneWay(ws: seq<Write>, k: string, skip: bool, ok: bool, error: bool)
    requires k != "" && !(skip && ok) && !(skip && error) && !(ok && error)
    requires skip == (Append(Skip(k)) in ws) && ok == (Append(Ok(k)) in ws) && error == (Append(Error(k)) in ws)
    ensures StatusOf(EventsOf(ws), k) ==
            if skip then Some(WasSkip) else if ok then Some(WasOk) else if error then Some(WasError) else None
  {
    RowsTell(ws, k);
    assert RowFor(k, WasOk) == Ok(k) && RowFor(k, WasError) == Error(k) && RowFor(k, WasSkip) == Skip(k);
  }

  /** The status of a key after a run, killed or not: from its rows, or else the old one. */
  lemma StatusAfterDone(s: State, r: Run, k: string)
    requires Legal(s, r)
    ensures var own := StatusOf(EventsOf(Done(s, r)), k);
            StatusOf(Step(s, r).log, k) == if own.Some? then own else StatusOf(s.log, k)
  {
    LogEffect(s, Done(s, r));
    StatusConcat(s.log, EventsOf(Done(s, r)), k);
  }

  lemma DoneIsWritten(s: State, r: Run, w: Write)
    requires Legal(s, r) && w in Done(s, r)
    ensures w in Writes(s, r)
  {}

  lemma {:induction false} SkipWritesAre(ts: seq<Target>)
    ensures forall w :: w in SkipWrites(ts) <==> exists t :: t in ts && w == Append(Skip(t.key))
    ensures |SkipWrites(ts)| == |ts|
    ensures forall k :: PutCount(SkipWrites(ts), k) == 0
  {
    if ts != [] {
      SkipWritesAre(ts[1..]);
      assert ts == [ts[0]] + ts[1..];
    }
  }

  /** The rows written for a batch: an `ok` or an `error` for every target, as its outcome says. */
  lemma {:induction false} BatchRows(batch: seq<Target>, outcomes: seq<Outcome>)
    requires |outcomes| == |batch|
    ensures forall e :: Append(e) in BatchWrites(batch, outcomes) && Says(e).Some? ==>
              exists i :: 0 <= i < |batch| && e == (if outcomes[i].ok then Ok(batch[i].key) else Error(batch[i].key))
    ensures forall i :: 0 <= i < |batch| ==>
              Append(if outcomes[i].ok then Ok(batch[i].key) else Error(batch[i].key)) in BatchWrites(batch, outcomes)
  {
    if batch != [] {
      var first, rest := TargetWrites(batch[0], outcomes[0]), BatchWrites(batch[1..], outcomes[1..]);
      BatchRows(batch[1..], outcomes[1..]);
      forall e | Append(e) in BatchWrites(batch, outcomes) && Says(e).Some?
        ensures exists i :: 0 <= i < |batch| && e == (if outcomes[i].ok then Ok(batch[i].key) else Error(batch[i].key))
      {
        if Append(e) in first {
          assert e == if outcomes[0].ok then Ok(batch[0].key) else Error(batch[0].key);
        } else {
          assert Append(e) in rest;
          var j :| 0 <= j < |batch[1..]| &&
                   e == (if outcomes[1..][j].ok then Ok(batch[1..][j].key) else Error(batch[1..][j].key));
          assert batch[j + 1] == batch[1..][j];
        }
      }
      forall i | 0 <= i < |batch|
        ensures Append(if outcomes[i].ok then Ok(batch[i].key) else Error(batch[i].key)) in BatchWrites(batch, outcomes)
      {
        if i > 0 {
          assert batch[i] == batch[1..][i - 1] && outcomes[i] == outcomes[1..][i - 1];
        }
      }
    }
  }

  /** Processing `k` as a member of this batch produced a sidecar. */
  ghost predicate MadeSidecar(batch: seq<Target>, outcomes: seq<Outcome>, k: string)
    requires |outcomes| == |batch|
  {
    exists i :: 0 <= i < |batch| && batch[i].key == k && outcomes[i].sidecar.Some?
  }

  lemma MadeInRest(batch: seq<Target>, outcomes: seq<Outcome>, k: string)
    requires |outcomes| == |batch| && batch != [] && DistinctKeys(batch)
    ensures MadeSidecar(batch, outcomes, k) <==>
            (batch[0].key == k && outcomes[0].sidecar.Some?) || MadeSidecar(batch[1..], outcomes[1..], k)
    ensures batch[0].key == k ==> !MadeSidecar(batch[1..], outcomes[1..], k)
  {
    assert forall i :: 0 < i < |batch| ==> batch[i] == batch[1..][i - 1] && outcomes[i] == outcomes[1..][i - 1];
    if MadeSidecar(batch[1..], outcomes[1..], k) {
      var j :| 0 <= j < |batch[1..]| && batch[1..][j].key == k && outcomes[1..][j].sidecar.Some?;
      assert batch[j + 1].key == k && outcomes[j + 1].sidecar.Some?;
    }
  }

  /** Sidecars are written for batch members only, once each. */
  lemma {:induction false} BatchSidecars(batch: seq<Target>, outcomes: seq<Outcome>, k: string)
    requires |outcomes| == |batch| && IsManifestKey(k)
    requires forall t :: t in batch ==> IsManifestKey(t.key)
    requires DistinctKeys(batch)
    ensures PutCount(BatchWrites(batch, outcomes), SidecarKey(k)) == if MadeSidecar(batch, outcomes, k) then 1 else 0
  {
    if batch != [] {
      var t, o := batch[0], outcomes[0];
      assert t in batch;
      var key := SidecarKey(k);
      var batch', outcomes' := batch[1..], outcomes[1..];
      PutCountConcat(TargetWrites(t, o), BatchWrites(batch', outcomes'), key);
      TargetSidecar(t, o, k);
      BatchSidecars(batch', outcomes', k);
      MadeInRest(batch, outcomes, k);
    }
  }

  /** Writes that do not put at `key` do not count. */
  lemma {:induction false} NotCounted(ws: seq<Write>, key: string)
    requires forall w :: w in ws && w.Put? ==> w.key != key
    ensures PutCount(ws, key) == 0
  {
    if ws != [] {
      assert ws[0] in ws && forall w :: w in ws[1..] ==> w in ws;
      NotCounted(ws[1..], key);
    }
  }

  lemma TargetSidecar(t: Target, o: Outcome, k: string)
    requires IsManifestKey(t.key) && IsManifestKey(k)
    ensures PutCount(TargetWrites(t, o), SidecarKey(k)) == if t.key == k && o.sidecar.Some? then 1 else 0
  {
    SidecarOfManifest(k);
    if SidecarKey(t.key) == SidecarKey(k) {
      SidecarsDiffer(t.key, k);
    }
    var a := [Append(Start(t.key))];
    var b := if o.manifest.Some? then [Put(t.key, o.manifest.value)] else [];
    var c := if o.sidecar.Some? then [Put(SidecarKey(t.key), o.sidecar.value)] else [];
    var d := [Append(if o.ok then Ok(t.key) else Error(t.key)), Track(Row(t.key, o.ok))];
    var key := SidecarKey(k);
    assert TargetWrites(t, o) == a + b + c + d;
    NotCounted(a, key);
    NotCounted(b, key);
    NotCounted(d, key);
    PutCountConcat(a + b + c, d, SidecarKey(k));
    PutCountConcat(a + b, c, SidecarKey(k));
    PutCountConcat(a, b, SidecarKey(k));
  }
}
