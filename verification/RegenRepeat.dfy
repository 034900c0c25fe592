/** A manifest that directory discovery makes the batch protocol complete twice. */
module RegenRepeat {
  import opened Text
  import opened RegenKeys
  import opened RegenRun
  import opened RegenHistory
  import opened RegenSafety
  import opened RegenDiscovery

  const PLAIN := Options({}, 0, false, false)

  /** A run that is shown one manifest and regenerates it, and one that finds nothing to do there. */
  function Working(k: string, b: Blob, bom: Blob): Run { Run([k], PLAIN, [Outcome(Some(b), Some(bom), true)], 6) }
  function Idle(k: string): Run { Run([k], PLAIN, [], 2) }

  lemma OneTarget(s: State, k: string)
    requires k in s.store && IsManifestKey(k) && HasRepo(s.store[k])
    ensures var t := TargetOf(k, s.store[k]);
            PendingIn(s, [k], PLAIN) == (if IsOk(s.log, k) then [] else [t]) &&
            SkippedIn(s, [k], PLAIN) == (if IsOk(s.log, k) then [t] else [])
  {
    var t := TargetOf(k, s.store[k]);
    SidecarOfManifest(k);
    ClassifyIs(s, Idle(k), t);
    assert TargetsIn(s.store, [k]) == [t] + TargetsIn(s.store, [k][1..]);
    assert Targets(s, [k], PLAIN) == [t];
    OneSplit(t, OkKeys(s.log), SidecarsIn([k]), true);
    OneSplit(t, OkKeys(s.log), SidecarsIn([k]), false);
  }

  lemma OneSplit(t: Target, ok: set<string>, sidecars: set<string>, p: bool)
    ensures Split([t], ok, sidecars, false, p) == if (Classify(t, ok, sidecars, false) == Pending) == p then [t] else []
  {
    assert [t][1..] == [];
  }

  lemma ApplyTwo(s: State, a: Write, b: Write)
    ensures ApplyAll(s, [a, b]) == Apply(Apply(s, a), b)
  {
    assert [a, b] == [a] + [b];
    ApplyLast(s, [a], b);
  }

  lemma ApplySix(s: State, ws: seq<Write>)
    requires |ws| == 6
    ensures ApplyAll(s, ws) == Apply(Apply(Apply(Apply(Apply(Apply(s, ws[0]), ws[1]), ws[2]), ws[3]), ws[4]), ws[5])
  {
    assert ws == [ws[0], ws[1]] + ([ws[2], ws[3]] + [ws[4], ws[5]]);
    ApplyConcat(s, [ws[0], ws[1]], [ws[2], ws[3]] + [ws[4], ws[5]]);
    ApplyTwo(s, ws[0], ws[1]);
    var s2 := Apply(Apply(s, ws[0]), ws[1]);
    ApplyConcat(s2, [ws[2], ws[3]], [ws[4], ws[5]]);
    ApplyTwo(s2, ws[2], ws[3]);
    ApplyTwo(Apply(Apply(s2, ws[2]), ws[3]), ws[4], ws[5]);
  }

  function SixWrites(k: string, b: Blob, bom: Blob): seq<Write> {
    [Append(Preflight), Append(Start(k)), Put(k, b), Put(SidecarKey(k), bom), Append(Ok(k)), Track(Row(k, true))]
  }

  lemma WorkingWrites(s: State, k: string, b: Blob, bom: Blob)
    requires k in s.store && IsManifestKey(k) && HasRepo(s.store[k]) && !IsOk(s.log, k)
    ensures var r := Working(k, b, bom);
            Legal(s, r) && Complete(s, r) && Done(s, r) == SixWrites(k, b, bom)
  {
    var r := Working(k, b, bom);
    var t := TargetOf(k, s.store[k]);
    OneTarget(s, k);
    assert Batch(s, r.listing, r.opts) == [t];
    assert Preamble(s, r.listing, r.opts) == [Append(Preflight)];
    OneBatch(t, r.outcomes[0]);
    SixInOrder(t, b, bom);
  }

  lemma SixInOrder(t: Target, b: Blob, bom: Blob)
    ensures [Append(Preflight)] + TargetWrites(t, Outcome(Some(b), Some(bom), true)) == SixWrites(t.key, b, bom)
  {}

  lemma OneBatch(t: Target, o: Outcome)
    ensures BatchWrites([t], [o]) == TargetWrites(t, o)
  {
    assert [t][1..] == [] && [o][1..] == [];
    assert TargetWrites(t, o) + [] == TargetWrites(t, o);
  }

  /** What a working run makes of a state. */
  function Worked(s: State, k: string, b: Blob, bom: Blob): State {
    State(s.log + [Preflight, Start(k), Ok(k)], s.store[k := b][SidecarKey(k) := bom], s.tracker + [Row(k, true)])
  }

  lemma WorkingRun(s: State, k: string, b: Blob, bom: Blob)
    requires k in s.store && IsManifestKey(k) && HasRepo(s.store[k]) && !IsOk(s.log, k)
    ensures var r := Working(k, b, bom);
            Legal(s, r) && Complete(s, r) && PutCount(Done(s, r), SidecarKey(k)) == 1 &&
            Step(s, r) == Worked(s, k, b, bom)
  {
    WorkingWrites(s, k, b, bom);
    SixApplied(s, k, b, bom);
    SixCount(k, b, bom);
  }

  lemma SixApplied(s: State, k: string, b: Blob, bom: Blob)
    ensures ApplyAll(s, SixWrites(k, b, bom)) == Worked(s, k, b, bom)
  {
    ApplySix(s, SixWrites(k, b, bom));
    assert s.log + [Preflight] + [Start(k)] + [Ok(k)] == s.log + [Preflight, Start(k), Ok(k)];
  }

  lemma SixCount(k: string, b: Blob, bom: Blob)
    requires IsManifestKey(k)
    ensures PutCount(SixWrites(k, b, bom), SidecarKey(k)) == 1
  {
    var ws := SixWrites(k, b, bom);
    SidecarOfManifest(k);
    assert ws == ws[..3] + ([ws[3]] + ws[4..]);
    PutCountConcat(ws[..3], [ws[3]] + ws[4..], SidecarKey(k));
    PutCountConcat([ws[3]], ws[4..], SidecarKey(k));
    NotCounted(ws[..3], SidecarKey(k));
    NotCounted(ws[4..], SidecarKey(k));
  }

  lemma IdleRun(s: State, k: string)
    requires k in s.store && IsManifestKey(k) && HasRepo(s.store[k]) && IsOk(s.log, k)
    ensures var r := Idle(k);
            Legal(s, r) && Complete(s, r) && PutCount(Done(s, r), SidecarKey(k)) == 0 &&
            Step(s, r) == State(s.log + [Preflight, Skip(k)], s.store, s.tracker)
  {
    var ws := [Append(Preflight), Append(Skip(k))];
    IdleWrites(s, k);
    ApplyTwo(s, ws[0], ws[1]);
    NotCounted(ws, SidecarKey(k));
  }

  lemma IdleWrites(s: State, k: string)
    requires k in s.store && IsManifestKey(k) && HasRepo(s.store[k]) && IsOk(s.log, k)
    ensures var r := Idle(k);
            Legal(s, r) && Complete(s, r) && Done(s, r) == [Append(Preflight), Append(Skip(k))]
  {
    var t := TargetOf(k, s.store[k]);
    OneTarget(s, k);
    assert Batch(s, [k], PLAIN) == [];
    assert SkipWrites([t]) == [Append(Skip(k))] + SkipWrites([t][1..]);
  }

  /** Finished non-forced runs, each fed by directory discovery. */
  ghost predicate Ordinary(s: State, runs: seq<Run>)
    requires LegalHistory(s, runs)
  {
    forall i: nat :: i < |runs| ==>
      !runs[i].opts.force && ByDirectory(At(s, runs, i), runs[i]) &&
      Legal(At(s, runs, i), runs[i]) && Complete(At(s, runs, i), runs[i])
  }

  lemma {:induction false} InFront(s: State, r: Run, runs: seq<Run>, k: string)
    requires Legal(s, r) && LegalHistory(Step(s, r), runs) && Ordinary(Step(s, r), runs)
    requires !r.opts.force && ByDirectory(s, r) && Complete(s, r)
    ensures LegalHistory(s, [r] + runs) && Ordinary(s, [r] + runs)
    ensures Completions(s, [r] + runs, k) == PutCount(Done(s, r), SidecarKey(k)) + Completions(Step(s, r), runs, k)
  {
    var all := [r] + runs;
    assert all[1..] == runs;
    assert At(s, all, 0) == s;
    forall i: nat | 0 < i < |all| ensures At(s, all, i) == At(Step(s, r), runs, i - 1) && all[i] == runs[i - 1] {}
  }

  /** The store holds the manifest `k`, perhaps its sidecar, and nothing else. */
  ghost predicate Alone(s: State, k: string) {
    IsManifestKey(k) && Discovered(k) && k in s.store && HasRepo(s.store[k]) &&
    forall x :: x in s.store ==> x == k || x == SidecarKey(k)
  }

  lemma {:induction false} SkipAndWork(s: State, k: string, b: Blob, bom: Blob)
    requires Alone(s, k) && IsOk(s.log, k) && HasRepo(b)
    ensures var runs := [Idle(k)] + ([Working(k, b, bom)] + []);
            LegalHistory(s, runs) && Ordinary(s, runs) && Completions(s, runs, k) == 1
  {
    SidecarsDoNotShow(k);
    IdleRun(s, k);
    var next := Step(s, Idle(k));
    EndsIn(next.log, Skip(k), k);
    WorkingRun(next, k, b, bom);
    InFront(next, Working(k, b, bom), [], k);
    InFront(s, Idle(k), [Working(k, b, bom)] + [], k);
  }

  lemma StaysAlone(s: State, k: string, b: Blob, bom: Blob)
    requires Alone(s, k) && HasRepo(b)
    ensures Alone(Worked(s, k, b, bom), k)
  {
    assert SidecarKey(k) != k by { SidecarsDoNotShow(k); }
    WrittenStore(s.store, k, b, SidecarKey(k), bom);
  }

  lemma WrittenStore(store: map<string, Blob>, k: string, b: Blob, side: string, bom: Blob)
    requires side != k && forall x :: x in store ==> x == k || x == side
    ensures var after := store[k := b][side := bom];
            k in after && after[k] == b && forall x :: x in after ==> x == k || x == side
  {}

  lemma WorkedLog(log: seq<Event>, k: string)
    requires k != ""
    ensures IsOk(log + [Preflight, Start(k), Ok(k)], k)
  {
    EndsIn(log + [Preflight, Start(k), Ok(k)], Ok(k), k);
  }

  /** A run that works, one that skips, and one that works again. */
  function Thrice(k: string, b: Blob, bom: Blob): seq<Run> {
    [Working(k, b, bom)] + ([Idle(k)] + ([Working(k, b, bom)] + []))
  }

  /** With directory discovery it is not true that a key is completed at most once: starting from
      a single manifest, three runs that go well write its sidecar twice. */
  lemma {:induction false} DoneTwice(k: string, b: Blob, bom: Blob)
    requires Discovered(k) && IsManifestKey(k) && HasRepo(b)
    ensures var s := State([], map[k := b], []);
            LegalHistory(s, Thrice(k, b, bom)) && Ordinary(s, Thrice(k, b, bom)) &&
            Completions(s, Thrice(k, b, bom), k) == 2
  {
    var s := State([], map[k := b], []);
    StaysAlone(s, k, b, bom);
    ManifestNonempty(k);
    WorkedLog(s.log, k);
    SkipAndWork(Worked(s, k, b, bom), k, b, bom);
    WorkingRun(s, k, b, bom);
    SidecarsDoNotShow(k);
    InFront(s, Working(k, b, bom), [Idle(k)] + ([Working(k, b, bom)] + []), k);
  }

  lemma EndsIn(log: seq<Event>, e: Event, k: string)
    requires log != [] && log[|log| - 1] == e && Says(e).Some? && Says(e).value.0 == k
    ensures StatusOf(log, k) == Some(Says(e).value.1)
  {}

  lemma SidecarsDoNotShow(k: string)
    requires IsManifestKey(k)
    ensures !Discovered(SidecarKey(k)) && SidecarKey(k) != k && k != ""
  {
    SidecarOfManifest(k);
    SidecarsHidden(SidecarKey(k));
    ManifestNonempty(k);
  }

  /** There are such keys. */
  lemma SampleKey(k: string)
    requires k == "okh/a.json"
    ensures Discovered(k) && IsManifestKey(k)
  {
    SampleName(k);
    ManifestKeyIs(k);
    assert k[5..] == ".json";
    assert k[1..][0] == 'k';
  }

  lemma SampleName(k: string)
    requires k == "okh/a.json"
    ensures !LooksLikeBom(k)
  {
    var base := "a.json";
    assert k == "okh" + "/" + base;
    BaseNameOf("okh", base);
    var low := Lower(BaseName(k));
    assert |low| == 6 && low[0] == 'a';
  }
}
