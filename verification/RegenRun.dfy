/** One run of the batch regenerator: the log, the blob store and the tracker it works on, what
    it reads from them, and everything it writes, in order. */
module RegenRun {
  import opened Text
  import opened RegenKeys

  /* ---------- State ---------- */

  /** Log rows. The JSON row's other fields are never read back. */
  datatype Event = Preflight | Skip(key: string) | Start(key: string) | Ok(key: string) | Error(key: string)

  /** A JSON object with what `str(manifest.get("repo") or "")` gives, or something that is not one. */
  datatype Blob = Json(repo: string) | Broken

  datatype Row = Row(key: string, ok: bool)

  datatype State = State(log: seq<Event>, store: map<string, Blob>, tracker: seq<Row>)

  /* ---------- Reading the log ---------- */

  datatype Status = WasOk | WasError | WasSkip

  /** What a row says about the key it names, if anything. */
  function Says(e: Event): Option<(string, Status)> {
    match e
    case Ok(k) => if k == "" then None else Some((k, WasOk))
    case Error(k) => if k == "" then None else Some((k, WasError))
    case Skip(k) => if k == "" then None else Some((k, WasSkip))
    case _ => None
  }

  /** The latest status of `k`. */
  function StatusOf(log: seq<Event>, k: string): Option<Status> {
    if log == [] then None
    else
      var last := Says(log[|log| - 1]);
      if last.Some? && last.value.0 == k then Some(last.value.1) else StatusOf(log[..|log| - 1], k)
  }

  predicate IsOk(log: seq<Event>, k: string) { StatusOf(log, k) == Some(WasOk) }

  function Named(log: seq<Event>): set<string> {
    set e | e in log && Says(e).Some? :: Says(e).value.0
  }

  /** The keys whose latest status is ok. */
  function OkKeys(log: seq<Event>): (r: set<string>)
    ensures forall k :: k in r <==> IsOk(log, k)
  {
    OkAreNamed(log);
    set k | k in Named(log) && IsOk(log, k)
  }

  lemma {:induction false} OkAreNamed(log: seq<Event>)
    ensures forall k :: StatusOf(log, k).Some? ==> k in Named(log)
  {
    if log != [] {
      OkAreNamed(log[..|log| - 1]);
      assert Named(log[..|log| - 1]) <= Named(log);
      assert log[|log| - 1] in log;
    }
  }

  /** Later rows override earlier ones. */
  lemma {:induction false} StatusConcat(a: seq<Event>, b: seq<Event>, k: string)
    ensures StatusOf(a + b, k) == if StatusOf(b, k).Some? then StatusOf(b, k) else StatusOf(a, k)
  {
    if b == [] {
      assert a + b == a;
    } else {
      StatusConcat(a, b[..|b| - 1], k);
      assert (a + b)[..|a + b| - 1] == a + b[..|b| - 1];
    }
  }

  /** A row that says how a key ended or that it was passed over. */
  predicate Settles(e: Event, k: string) { e == Ok(k) || e == Error(k) || e == Skip(k) }

  /** The row at `i` is the last that settles the key, and it is an ok. */
  ghost predicate LastOk(log: seq<Event>, k: string, i: nat) {
    i < |log| && log[i] == Ok(k) && forall j :: i < j < |log| ==> !Settles(log[j], k)
  }

  /** A key is ok exactly when the last row that settles it is an ok row; the empty key never is. */
  lemma {:induction false} OkMeans(log: seq<Event>, k: string)
    ensures IsOk(log, k) <==> k != "" && exists i :: LastOk(log, k, i)
    ensures StatusOf(log, k).None? <==> k == "" || forall j :: 0 <= j < |log| ==> !Settles(log[j], k)
  {
    if log != [] {
      var n := |log| - 1;
      var front := log[..n];
      OkMeans(front, k);
      assert forall j :: 0 <= j < n ==> front[j] == log[j];
      if !Settles(log[n], k) {
        forall i ensures LastOk(front, k, i) <==> LastOk(log, k, i) {}
      } else if log[n] == Ok(k) {
        assert LastOk(log, k, n);
      }
    }
  }

  /* ---------- Inventory and classification ---------- */

  datatype Reason = ParseError | MissingRepo

  datatype Target = Target(key: string, repo: Option<string>, skipReason: Option<Reason>)

  function TargetOf(key: string, blob: Blob): Target {
    match blob
    case Broken => Target(key, None, Some(ParseError))
    case Json(raw) =>
      var repo := Strip(raw);
      if repo != "" then Target(key, Some(repo), None) else Target(key, None, Some(MissingRepo))
  }

  /** The manifests of a listing, in listing order. */
  function TargetsIn(store: map<string, Blob>, listing: seq<string>): seq<Target>
    requires forall k :: k in listing ==> k in store
  {
    if listing == [] then []
    else (if IsManifestKey(listing[0]) then [TargetOf(listing[0], store[listing[0]])] else [])
         + TargetsIn(store, listing[1..])
  }

  function SidecarsIn(listing: seq<string>): set<string> {
    set k | k in listing && IsSidecarKey(k)
  }

  /** `--only-keys`, if given. */
  function Only(targets: seq<Target>, only: set<string>): seq<Target> {
    if only == {} then targets
    else if targets == [] then []
    else (if targets[0].key in only then [targets[0]] else []) + Only(targets[1..], only)
  }

  datatype Class = NoRepo | AlreadyOk | BomExists | Pending

  function Classify(t: Target, okKeys: set<string>, sidecars: set<string>, force: bool): Class {
    if t.skipReason == Some(MissingRepo) || t.repo.None? || Strip(t.repo.value) == "" then NoRepo
    else if force then Pending
    else if t.key in okKeys then AlreadyOk
    else if SidecarKey(t.key) in sidecars then BomExists
    else Pending
  }

  /** The targets classified as pending, or the others, in order. */
  function Split(targets: seq<Target>, okKeys: set<string>, sidecars: set<string>, force: bool, pending: bool)
    : seq<Target>
  {
    if targets == [] then []
    else (if (Classify(targets[0], okKeys, sidecars, force) == Pending) == pending then [targets[0]] else [])
         + Split(targets[1..], okKeys, sidecars, force, pending)
  }

  function SelectBatch(pending: seq<Target>, batchSize: int): (r: seq<Target>)
    ensures r <= pending
  {
    if batchSize <= 0 || |pending| <= batchSize then pending else pending[..batchSize]
  }

  /* ---------- A run ---------- */

  datatype Options = Options(only: set<string>, batchSize: int, dryRun: bool, force: bool)

  /** What processing one target comes to: the manifest and the sidecar written, if it got that
      far, and whether it ended in an `ok` row. */
  datatype Outcome = Outcome(manifest: Option<Blob>, sidecar: Option<Blob>, ok: bool) {
    predicate Possible() {
      (sidecar.Some? ==> manifest.Some?) && (ok ==> manifest.Some?)
    }
  }

  datatype Write = Append(event: Event) | Put(key: string, blob: Blob) | Track(row: Row)

  function Apply(s: State, w: Write): State {
    match w
    case Append(e) => s.(log := s.log + [e])
    case Put(k, b) => s.(store := s.store[k := b])
    case Track(r) => s.(tracker := s.tracker + [r])
  }

  function ApplyAll(s: State, ws: seq<Write>): State
    decreases |ws|
  {
    if ws == [] then s else ApplyAll(Apply(s, ws[0]), ws[1..])
  }

  lemma {:induction false} ApplyConcat(s: State, a: seq<Write>, b: seq<Write>)
    ensures ApplyAll(s, a + b) == ApplyAll(ApplyAll(s, a), b)
    decreases |a|
  {
    if a == [] {
      assert a + b == b;
    } else {
      assert (a + b)[1..] == a[1..] + b;
      ApplyConcat(Apply(s, a[0]), a[1..], b);
    }
  }

  lemma ApplyLast(s: State, ws: seq<Write>, w: Write)
    ensures ApplyAll(s, ws + [w]) == Apply(ApplyAll(s, ws), w)
  {
    ApplyConcat(s, ws, [w]);
  }

  function SkipWrites(skipped: seq<Target>): seq<Write> {
    if skipped == [] then [] else [Append(Skip(skipped[0].key))] + SkipWrites(skipped[1..])
  }

  function ManifestWrites(t: Target, o: Outcome): seq<Write> {
    if o.manifest.Some? then [Put(t.key, o.manifest.value)] else []
  }

  function SidecarWrites(t: Target, o: Outcome): seq<Write> {
    if o.sidecar.Some? then [Put(SidecarKey(t.key), o.sidecar.value)] else []
  }

  function LastWrites(t: Target, o: Outcome): seq<Write> {
    [Append(if o.ok then Ok(t.key) else Error(t.key)), Track(Row(t.key, o.ok))]
  }

  function TargetWrites(t: Target, o: Outcome): seq<Write> {
    [Append(Start(t.key))] + ManifestWrites(t, o) + SidecarWrites(t, o) + LastWrites(t, o)
  }

  function BatchWrites(batch: seq<Target>, outcomes: seq<Outcome>): seq<Write>
    requires |outcomes| == |batch|
  {
    if batch == [] then [] else TargetWrites(batch[0], outcomes[0]) + BatchWrites(batch[1..], outcomes[1..])
  }

  /** What a run sees of the state it starts from. */
  function Targets(s: State, listing: seq<string>, opts: Options): seq<Target>
    requires forall k :: k in listing ==> k in s.store
  {
    Only(TargetsIn(s.store, listing), opts.only)
  }

  function PendingIn(s: State, listing: seq<string>, opts: Options): seq<Target>
    requires forall k :: k in listing ==> k in s.store
  {
    Split(Targets(s, listing, opts), OkKeys(s.log), SidecarsIn(listing), opts.force, true)
  }

  function SkippedIn(s: State, listing: seq<string>, opts: Options): seq<Target>
    requires forall k :: k in listing ==> k in s.store
  {
    Split(Targets(s, listing, opts), OkKeys(s.log), SidecarsIn(listing), opts.force, false)
  }

  /** The targets a run processes; a dry run processes none. */
  function Batch(s: State, listing: seq<string>, opts: Options): seq<Target>
    requires forall k :: k in listing ==> k in s.store
  {
    if opts.dryRun then [] else SelectBatch(PendingIn(s, listing, opts), opts.batchSize)
  }

  function Preamble(s: State, listing: seq<string>, opts: Options): seq<Write>
    requires forall k :: k in listing ==> k in s.store
  {
    [Append(Preflight)] + SkipWrites(SkippedIn(s, listing, opts))
  }

  function RunWrites(s: State, listing: seq<string>, opts: Options, outcomes: seq<Outcome>): seq<Write>
    requires forall k :: k in listing ==> k in s.store
    requires |outcomes| == |Batch(s, listing, opts)|
  {
    Preamble(s, listing, opts) + BatchWrites(Batch(s, listing, opts), outcomes)
  }

  /** The printed counts. */
  datatype Report = Report(counts: map<Class, nat>, selected: nat, remainingAfter: nat, errors: nat)

  predicate HasRepo(b: Blob) { b.Json? && Strip(b.repo) != "" }

  /** A key that a run with these options looks at: a manifest, one of the keys asked for if any are. */
  predicate Looks(opts: Options, k: string) { IsManifestKey(k) && (opts.only == {} || k in opts.only) }

  /** Its manifest names no repo. */
  predicate LacksRepo(s: State, opts: Options, k: string) {
    Looks(opts, k) && k in s.store && !HasRepo(s.store[k])
  }

  /** It is done according to the log. */
  predicate DoneInLog(s: State, opts: Options, k: string) {
    Looks(opts, k) && k in s.store && HasRepo(s.store[k]) && !opts.force && IsOk(s.log, k)
  }

  /** It is done according to the sidecar listed. */
  predicate DoneByListing(s: State, listing: seq<string>, opts: Options, k: string) {
    Looks(opts, k) && k in s.store && HasRepo(s.store[k]) && !opts.force && !IsOk(s.log, k) && SidecarKey(k) in listing
  }

  /** It is still to be done, or again. */
  predicate Waits(s: State, listing: seq<string>, opts: Options, k: string) {
    Looks(opts, k) && k in s.store && HasRepo(s.store[k]) &&
    (opts.force || (!IsOk(s.log, k) && SidecarKey(k) !in listing))
  }

  /** At how many places of a list something holds. */
  function CountIf<T(!new)>(xs: seq<T>, p: T -> bool): nat {
    if xs == [] then 0 else (if p(xs[0]) then 1 else 0) + CountIf(xs[1..], p)
  }

  lemma StripTwice(s: string)
    ensures Strip(Strip(s)) == Strip(s)
  {}

  /** What the classes of a target say about its key. */
  lemma ClassMeans(s: State, listing: seq<string>, opts: Options, k: string)
    requires k in s.store && Looks(opts, k)
    ensures var c := Classify(TargetOf(k, s.store[k]), OkKeys(s.log), SidecarsIn(listing), opts.force);
            (c == NoRepo <==> LacksRepo(s, opts, k)) && (c == AlreadyOk <==> DoneInLog(s, opts, k)) &&
            (c == BomExists <==> DoneByListing(s, listing, opts, k)) && (c == Pending <==> Waits(s, listing, opts, k))
  {
    SidecarOfManifest(k);
    match s.store[k]
    case Broken =>
    case Json(raw) => StripTwice(raw);
  }

  /** Every class is counted as often as a key looked at falls into it. */
  lemma {:induction false} CountClass(s: State, ks: seq<string>, opts: Options, sidecars: set<string>, c: Class,
                                      p: string -> bool)
    requires forall k :: k in ks ==> k in s.store
    requires forall k :: k in ks ==>
               (p(k) <==> Looks(opts, k) && Classify(TargetOf(k, s.store[k]), OkKeys(s.log), sidecars, opts.force) == c)
    ensures multiset(ClassesOf(Targets(s, ks, opts), OkKeys(s.log), sidecars, opts.force))[c] == CountIf(ks, p)
  {
    if ks != [] {
      var k, rest := ks[0], Targets(s, ks[1..], opts);
      assert k in ks && forall m :: m in ks[1..] ==> m in ks;
      CountClass(s, ks[1..], opts, sidecars, c, p);
      FirstTarget(s, ks, opts);
      if Looks(opts, k) {
        OneClass(TargetOf(k, s.store[k]), rest, OkKeys(s.log), sidecars, opts.force);
      } else {
        assert Targets(s, ks, opts) == rest;
      }
    }
  }

  lemma FirstTarget(s: State, ks: seq<string>, opts: Options)
    requires ks != [] && forall k :: k in ks ==> k in s.store
    ensures Targets(s, ks, opts) ==
            (if Looks(opts, ks[0]) then [TargetOf(ks[0], s.store[ks[0]])] else []) + Targets(s, ks[1..], opts)
  {
    var t, rest := TargetOf(ks[0], s.store[ks[0]]), TargetsIn(s.store, ks[1..]);
    assert ([t] + rest)[1..] == rest && [] + rest == rest;
  }

  lemma OneClass(t: Target, rest: seq<Target>, ok: set<string>, sidecars: set<string>, force: bool)
    ensures ClassesOf([t] + rest, ok, sidecars, force) ==
            [Classify(t, ok, sidecars, force)] + ClassesOf(rest, ok, sidecars, force)
  {}

  /** The class counts in terms of the state. */
  lemma {:induction false} CountsMean(s: State, listing: seq<string>, opts: Options)
    requires forall k :: k in listing ==> k in s.store
    ensures var ts := Targets(s, listing, opts);
            var counts := multiset(ClassesOf(ts, OkKeys(s.log), SidecarsIn(listing), opts.force));
            counts[NoRepo] == CountIf(listing, k => LacksRepo(s, opts, k)) &&
            counts[AlreadyOk] == CountIf(listing, k => DoneInLog(s, opts, k)) &&
            counts[BomExists] == CountIf(listing, k => DoneByListing(s, listing, opts, k)) &&
            counts[Pending] == CountIf(listing, k => Waits(s, listing, opts, k))
  {
    forall k | k in listing && Looks(opts, k)
      ensures var c := Classify(TargetOf(k, s.store[k]), OkKeys(s.log), SidecarsIn(listing), opts.force);
              (c == NoRepo <==> LacksRepo(s, opts, k)) && (c == AlreadyOk <==> DoneInLog(s, opts, k)) &&
              (c == BomExists <==> DoneByListing(s, listing, opts, k)) && (c == Pending <==> Waits(s, listing, opts, k))
    {
      ClassMeans(s, listing, opts, k);
    }
    CountClass(s, listing, opts, SidecarsIn(listing), NoRepo, k => LacksRepo(s, opts, k));
    CountClass(s, listing, opts, SidecarsIn(listing), AlreadyOk, k => DoneInLog(s, opts, k));
    CountClass(s, listing, opts, SidecarsIn(listing), BomExists, k => DoneByListing(s, listing, opts, k));
    CountClass(s, listing, opts, SidecarsIn(listing), Pending, k => Waits(s, listing, opts, k));
  }

  /** As many targets are pending as are counted so. */
  lemma {:induction false} PendingCounted(ts: seq<Target>, ok: set<string>, sidecars: set<string>, force: bool)
    ensures |Split(ts, ok, sidecars, force, true)| == multiset(ClassesOf(ts, ok, sidecars, force))[Pending]
  {
    if ts != [] {
      PendingCounted(ts[1..], ok, sidecars, force);
      OneClass(ts[0], ts[1..], ok, sidecars, force);
      assert ts == [ts[0]] + ts[1..];
    }
  }

  /** The class of every target. */
  function ClassesOf(targets: seq<Target>, okKeys: set<string>, sidecars: set<string>, force: bool): (r: seq<Class>)
    ensures |r| == |targets|
    ensures forall i :: 0 <= i < |r| ==> r[i] == Classify(targets[i], okKeys, sidecars, force)
  {
    seq(|targets|, i requires 0 <= i < |targets| => Classify(targets[i], okKeys, sidecars, force))
  }

  /** `summarize_classifications` */
  method Summarize(statuses: seq<Class>) returns (counts: map<Class, nat>)
    ensures forall c :: c in counts && counts[c] == multiset(statuses)[c]
  {
    counts := map[NoRepo := 0, AlreadyOk := 0, BomExists := 0, Pending := 0];
    forall c: Class ensures c in counts && counts[c] == 0 {
      assert c == NoRepo || c == AlreadyOk || c == BomExists || c == Pending;
    }
    for i := 0 to |statuses|
      invariant forall c :: c in counts && counts[c] == multiset(statuses[..i])[c]
    {
      assert statuses[..i + 1] == statuses[..i] + [statuses[i]];
      counts := counts[statuses[i] := counts[statuses[i]] + 1];
    }
    assert statuses[..|statuses|] == statuses;
  }

  lemma {:induction false} TargetsConcat(store: map<string, Blob>, a: seq<string>, b: seq<string>)
    requires forall k :: k in a + b ==> k in store
    ensures TargetsIn(store, a + b) == TargetsIn(store, a) + TargetsIn(store, b)
  {
    assert forall k :: k in a ==> k in a + b;
    assert forall k :: k in b ==> k in a + b;
    if a == [] {
      assert a + b == b;
    } else {
      assert (a + b)[1..] == a[1..] + b;
      TargetsConcat(store, a[1..], b);
    }
  }

  /** The script's working set: the log file, the container and the tracker file. */
  class Regenerator {
    var log: seq<Event>
    var store: map<string, Blob>
    var tracker: seq<Row>

    /** All writes so far, in the order in which they happened. */
    ghost var trace: seq<Write>

    constructor (s: State)
      ensures Now() == s && trace == []
    {
      log, store, tracker := s.log, s.store, s.tracker;
      trace := [];
    }

    function Now(): State
      reads this
    {
      State(log, store, tracker)
    }

    /** `load_ok_keys_from_logfile` */
    method LoadOkKeys() returns (okKeys: set<string>)
      ensures okKeys == OkKeys(log)
    {
      var latest: map<string, Status> := map[];
      for i := 0 to |log|
        invariant forall k :: k in latest <==> StatusOf(log[..i], k).Some?
        invariant forall k :: k in latest ==> StatusOf(log[..i], k) == Some(latest[k])
      {
        assert log[..i + 1][..i] == log[..i] && log[..i + 1][i] == log[i];
        match Says(log[i]) {
          case None =>
          case Some(said) => latest := latest[said.0 := said.1];
        }
      }
      assert log[..|log|] == log;
      okKeys := set k | k in latest && latest[k] == WasOk;
    }

    /** `_inventory` */
    method Inventory(listing: seq<string>) returns (targets: seq<Target>, sidecars: set<string>)
      requires forall k :: k in listing ==> k in store
      ensures targets == TargetsIn(store, listing) && sidecars == SidecarsIn(listing)
    {
      targets, sidecars := [], {};
      for i := 0 to |listing|
        invariant targets == TargetsIn(store, listing[..i])
        invariant sidecars == SidecarsIn(listing[..i])
      {
        var key := listing[i];
        assert listing[..i + 1] == listing[..i] + [key];
        TargetsConcat(store, listing[..i], [key]);
        assert TargetsIn(store, [key]) == if IsManifestKey(key) then [TargetOf(key, store[key])] else [];
        if IsSidecarKey(key) {
          sidecars := sidecars + {key};
          assert !IsManifestKey(key);
          continue;
        }
        if !IsManifestKey(key) {
          continue;
        }
        targets := targets + [TargetOf(key, store[key])];
      }
      assert listing[..|listing|] == listing;
    }

    /* The three ways to write. */

    /** `append_log_event` */
    method LogRow(event: Event)
      modifies this`log, this`trace
      ensures Now() == Apply(old(Now()), Append(event)) && trace == old(trace) + [Append(event)]
    {
      log := log + [event];
      trace := trace + [Append(event)];
    }

    /** `put_object` */
    method PutBlob(key: string, blob: Blob)
      modifies this`store, this`trace
      ensures Now() == Apply(old(Now()), Put(key, blob)) && trace == old(trace) + [Put(key, blob)]
    {
      store := store[key := blob];
      trace := trace + [Put(key, blob)];
    }

    method TrackRow(row: Row)
      modifies this`tracker, this`trace
      ensures Now() == Apply(old(Now()), Track(row)) && trace == old(trace) + [Track(row)]
    {
      tracker := tracker + [row];
      trace := trace + [Track(row)];
    }

    method LogSkips(skipped: seq<Target>)
      modifies this`log, this`trace
      ensures Now() == ApplyAll(old(Now()), SkipWrites(skipped))
      ensures trace == old(trace) + SkipWrites(skipped)
    {
      assert skipped[0..] == skipped;
      for i := 0 to |skipped|
        invariant store == old(store) && tracker == old(tracker)
        invariant ApplyAll(Now(), SkipWrites(skipped[i..])) == ApplyAll(old(Now()), SkipWrites(skipped))
        invariant trace + SkipWrites(skipped[i..]) == old(trace) + SkipWrites(skipped)
      {
        assert skipped[i..][1..] == skipped[i + 1..];
        SplitWrites(trace, [Append(Skip(skipped[i].key))], SkipWrites(skipped[i + 1..]));
        LogRow(Skip(skipped[i].key));
      }
    }

    /** What a job leaves in the store, as far as it gets. */
    method WriteBlobs(t: Target, o: Outcome)
      modifies this
      ensures Now() == ApplyAll(old(Now()), ManifestWrites(t, o) + SidecarWrites(t, o))
      ensures trace == old(trace) + (ManifestWrites(t, o) + SidecarWrites(t, o))
    {
      ghost var s := Now();
      ApplyConcat(s, ManifestWrites(t, o), SidecarWrites(t, o));
      SplitWrites(trace, ManifestWrites(t, o), SidecarWrites(t, o));
      if o.manifest.Some? {
        ApplyOne(Now(), Put(t.key, o.manifest.value));
        PutBlob(t.key, o.manifest.value);
      }
      if o.sidecar.Some? {
        ApplyOne(Now(), Put(SidecarKey(t.key), o.sidecar.value));
        PutBlob(SidecarKey(t.key), o.sidecar.value);
      }
    }

    method LogOutcome(t: Target, o: Outcome)
      modifies this
      ensures Now() == ApplyAll(old(Now()), LastWrites(t, o)) && trace == old(trace) + LastWrites(t, o)
    {
      var last := if o.ok then Ok(t.key) else Error(t.key);
      assert LastWrites(t, o) == [Append(last)] + [Track(Row(t.key, o.ok))];
      ApplyLast(Now(), [Append(last)], Track(Row(t.key, o.ok)));
      ApplyOne(Now(), Append(last));
      LogRow(last);
      TrackRow(Row(t.key, o.ok));
    }

    /** The body of the batch loop. */
    method Process(t: Target, o: Outcome)
      modifies this
      ensures Now() == ApplyAll(old(Now()), TargetWrites(t, o))
      ensures trace == old(trace) + TargetWrites(t, o)
    {
      ghost var blobs := ManifestWrites(t, o) + SidecarWrites(t, o);
      TargetInParts(t, o);
      ApplyConcat(Now(), [Append(Start(t.key))], blobs + LastWrites(t, o));
      ApplyOne(Now(), Append(Start(t.key)));
      SplitWrites(trace, [Append(Start(t.key))], blobs + LastWrites(t, o));
      LogRow(Start(t.key));
      ApplyConcat(Now(), blobs, LastWrites(t, o));
      SplitWrites(trace, blobs, LastWrites(t, o));
      WriteBlobs(t, o);
      LogOutcome(t, o);
    }

    method ProcessAll(batch: seq<Target>, outcomes: seq<Outcome>) returns (errors: nat)
      requires |outcomes| == |batch|
      modifies this
      ensures Now() == ApplyAll(old(Now()), BatchWrites(batch, outcomes))
      ensures trace == old(trace) + BatchWrites(batch, outcomes)
      ensures errors == CountIf(outcomes, (o: Outcome) => !o.ok)
    {
      errors := 0;
      ghost var failed := (o: Outcome) => !o.ok;
      assert outcomes[0..] == outcomes && batch[0..] == batch;
      for i := 0 to |batch|
        invariant ApplyAll(Now(), BatchWrites(batch[i..], outcomes[i..])) ==
                  ApplyAll(old(Now()), BatchWrites(batch, outcomes))
        invariant trace + BatchWrites(batch[i..], outcomes[i..]) == old(trace) + BatchWrites(batch, outcomes)
        invariant errors + CountIf(outcomes[i..], failed) == CountIf(outcomes, failed)
      {
        assert batch[i..][1..] == batch[i + 1..] && outcomes[i..][1..] == outcomes[i + 1..];
        ghost var rest := BatchWrites(batch[i + 1..], outcomes[i + 1..]);
        ApplyConcat(Now(), TargetWrites(batch[i], outcomes[i]), rest);
        SplitWrites(trace, TargetWrites(batch[i], outcomes[i]), rest);
        Process(batch[i], outcomes[i]);
        if !outcomes[i].ok {
          errors := errors + 1;
        }
      }
    }

    /** `main`, for the listing that discovery returned and the outcomes the generator will have. */
    method Run(listing: seq<string>, opts: Options, outcomes: seq<Outcome>) returns (report: Report)
      requires forall k :: k in listing ==> k in store
      requires |outcomes| == |Batch(Now(), listing, opts)|
      modifies this
      ensures Now() == ApplyAll(old(Now()), RunWrites(old(Now()), listing, opts, outcomes))
      ensures trace == old(trace) + RunWrites(old(Now()), listing, opts, outcomes)
      ensures forall c :: c in report.counts
      ensures report.counts[NoRepo] == CountIf(listing, k => LacksRepo(old(Now()), opts, k))
      ensures report.counts[AlreadyOk] == CountIf(listing, k => DoneInLog(old(Now()), opts, k))
      ensures report.counts[BomExists] == CountIf(listing, k => DoneByListing(old(Now()), listing, opts, k))
      ensures report.counts[Pending] == CountIf(listing, k => Waits(old(Now()), listing, opts, k))
      ensures var n := report.counts[Pending];
              report.selected == (if opts.batchSize <= 0 || n <= opts.batchSize then n else opts.batchSize) &&
              report.remainingAfter == n - report.selected
      ensures report.errors == if opts.dryRun then 0 else CountIf(outcomes, (o: Outcome) => !o.ok)
    {
      ghost var s := Now();
      CountsMean(s, listing, opts);
      PendingCounted(Targets(s, listing, opts), OkKeys(s.log), SidecarsIn(listing), opts.force);
      var all, sidecars := Inventory(listing);
      var targets := Only(all, opts.only);
      var okKeys := LoadOkKeys();
      var counts := Summarize(ClassesOf(targets, okKeys, sidecars, opts.force));
      var pending := Split(targets, okKeys, sidecars, opts.force, true);
      var skipped := Split(targets, okKeys, sidecars, opts.force, false);
      LogRow(Preflight);
      LogSkips(skipped);
      assert Now() == ApplyAll(s, Preamble(s, listing, opts));
      SplitWrites(old(trace), [Append(Preflight)], SkipWrites(skipped));
      SplitWrites(old(trace), Preamble(s, listing, opts), BatchWrites(Batch(s, listing, opts), outcomes));
      var batch := SelectBatch(pending, opts.batchSize);
      var remaining := |pending| - |batch|;
      ApplyConcat(s, Preamble(s, listing, opts), BatchWrites(Batch(s, listing, opts), outcomes));
      if opts.dryRun {
        return Report(counts, |batch|, remaining, 0);
      }
      var errors := ProcessAll(batch, outcomes);
      report := Report(counts, |batch|, remaining, errors);
    }
  }

  lemma SplitWrites(a: seq<Write>, b: seq<Write>, c: seq<Write>)
    ensures a + (b + c) == a + b + c
  {}

  lemma ApplyOne(s: State, w: Write)
    ensures ApplyAll(s, [w]) == Apply(s, w)
  {
    assert [w][1..] == [];
  }

  lemma TargetInParts(t: Target, o: Outcome)
    ensures TargetWrites(t, o) ==
            [Append(Start(t.key))] + (ManifestWrites(t, o) + SidecarWrites(t, o) + LastWrites(t, o))
  {}
}
