/** What the batch protocol reaches with directory discovery when every job succeeds: the first two
    batches, all of them, and nothing else. */
module RegenReach {
  import opened Text
  import opened RegenKeys
  import opened RegenRun
  import opened RegenHistory
  import opened RegenSafety
  import opened RegenProgress
  import opened RegenDiscovery

  /* ---------- Keys in order ---------- */

  /** The manifests with a repo, in listing order. */
  function RepoKeys(s: State, listing: seq<string>): seq<string>
    requires forall k :: k in listing ==> k in s.store
  {
    if listing == [] then []
    else (if IsManifestKey(listing[0]) && HasRepo(s.store[listing[0]]) then [listing[0]] else [])
         + RepoKeys(s, listing[1..])
  }

  function Without(ks: seq<string>, ok: set<string>): seq<string> {
    if ks == [] then [] else (if ks[0] in ok then [] else [ks[0]]) + Without(ks[1..], ok)
  }

  function KeysOf(ts: seq<Target>): (r: seq<string>)
    ensures |r| == |ts| && forall i :: 0 <= i < |r| ==> r[i] == ts[i].key
  {
    seq(|ts|, i requires 0 <= i < |ts| => ts[i].key)
  }

  function Elements(ks: seq<string>): set<string> { set k | k in ks }

  /** The first `n`, or all there are. */
  function Upto(ks: seq<string>, n: nat): seq<string> { if n < |ks| then ks[..n] else ks }

  lemma {:induction false} RepoKeysAre(s: State, listing: seq<string>)
    requires forall k :: k in listing ==> k in s.store
    ensures forall k :: k in RepoKeys(s, listing) <==> k in listing && IsManifestKey(k) && HasRepo(s.store[k])
    ensures Distinct(listing) ==> Distinct(RepoKeys(s, listing))
  {
    if listing != [] {
      RepoKeysAre(s, listing[1..]);
      assert listing == [listing[0]] + listing[1..];
      if Distinct(listing) {
        assert listing[0] !in listing[1..];
        assert forall i :: 0 <= i < |RepoKeys(s, listing[1..])| ==> RepoKeys(s, listing[1..])[i] in listing[1..];
      }
    }
  }

  lemma {:induction false} WithoutAre(ks: seq<string>, ok: set<string>)
    ensures forall k :: k in Without(ks, ok) <==> k in ks && k !in ok
    ensures Distinct(ks) ==> Distinct(Without(ks, ok))
  {
    if ks != [] {
      WithoutAre(ks[1..], ok);
      assert ks == [ks[0]] + ks[1..];
      if Distinct(ks) {
        assert ks[0] !in ks[1..];
        assert forall i :: 0 <= i < |Without(ks[1..], ok)| ==> Without(ks[1..], ok)[i] in ks[1..];
      }
    }
  }

  lemma {:induction false} WithoutConcat(a: seq<string>, b: seq<string>, ok: set<string>)
    ensures Without(a + b, ok) == Without(a, ok) + Without(b, ok)
    decreases |a|
  {
    if a == [] {
      assert a + b == b;
    } else {
      assert (a + b)[1..] == a[1..] + b;
      WithoutConcat(a[1..], b, ok);
    }
  }

  lemma {:induction false} CountDistinct(ks: seq<string>)
    requires Distinct(ks)
    ensures |Elements(ks)| == |ks|
  {
    if ks != [] {
      CountDistinct(ks[1..]);
      assert ks == [ks[0]] + ks[1..];
      assert ks[0] !in ks[1..];
      assert Elements(ks) == Elements(ks[1..]) + {ks[0]};
    }
  }

  /** Keys that no listed sidecar holds back are pending unless they are ok. */
  lemma {:induction false} PendingKeys(s: State, listing: seq<string>, ok: set<string>)
    requires forall k :: k in listing ==> k in s.store
    ensures KeysOf(Split(TargetsIn(s.store, listing), ok, {}, false, true)) == Without(RepoKeys(s, listing), ok)
  {
    if listing != [] {
      var k, rest := listing[0], TargetsIn(s.store, listing[1..]);
      PendingKeys(s, listing[1..], ok);
      KeyPends(s, k, ok);
      TargetsFirst(s.store, listing);
      RepoFirst(s, listing);
      SplitFirst(TargetOf(k, s.store[k]), rest, ok, false);
      WithoutFirst(k, RepoKeys(s, listing[1..]), ok);
    }
  }

  /** With force all manifests with a repo are. */
  lemma {:induction false} ForcedKeys(s: State, listing: seq<string>)
    requires forall k :: k in listing ==> k in s.store
    ensures KeysOf(Split(TargetsIn(s.store, listing), {}, {}, true, true)) == RepoKeys(s, listing)
  {
    if listing != [] {
      var k, rest := listing[0], TargetsIn(s.store, listing[1..]);
      ForcedKeys(s, listing[1..]);
      KeyPends(s, k, {});
      TargetsFirst(s.store, listing);
      SplitFirst(TargetOf(k, s.store[k]), rest, {}, true);
    }
  }

  lemma TargetsFirst(store: map<string, Blob>, listing: seq<string>)
    requires listing != [] && forall k :: k in listing ==> k in store
    ensures var k, rest := listing[0], TargetsIn(store, listing[1..]);
            TargetsIn(store, listing) == if IsManifestKey(k) then [TargetOf(k, store[k])] + rest else rest
  {}

  lemma RepoFirst(s: State, listing: seq<string>)
    requires listing != [] && forall k :: k in listing ==> k in s.store
    ensures var k, rest := listing[0], RepoKeys(s, listing[1..]);
            RepoKeys(s, listing) == if IsManifestKey(k) && HasRepo(s.store[k]) then [k] + rest else rest
  {}

  lemma WithoutFirst(k: string, rest: seq<string>, ok: set<string>)
    ensures Without([k] + rest, ok) == (if k in ok then [] else [k]) + Without(rest, ok)
  {
    assert ([k] + rest)[1..] == rest;
  }

  lemma SplitFirst(t: Target, rest: seq<Target>, ok: set<string>, force: bool)
    ensures KeysOf(Split([t] + rest, ok, {}, force, true)) ==
            (if Classify(t, ok, {}, force) == Pending then [t.key] else []) + KeysOf(Split(rest, ok, {}, force, true))
  {
    assert ([t] + rest)[1..] == rest;
  }

  lemma KeyPends(s: State, k: string, ok: set<string>)
    requires k in s.store
    ensures Classify(TargetOf(k, s.store[k]), ok, {}, false) == Pending <==> HasRepo(s.store[k]) && k !in ok
    ensures Classify(TargetOf(k, s.store[k]), {}, {}, true) == Pending <==> HasRepo(s.store[k])
  {
    match s.store[k]
    case Broken =>
    case Json(raw) => StripTwice(raw);
  }

  /* ---------- One good run ---------- */

  /** A finished, real run of batch size b over everything the discovery service lists, all of
      whose jobs succeed. */
  ghost predicate GoodBy(s: State, r: Run, listing: seq<string>, b: nat) {
    Legal(s, r) && Complete(s, r) && ByDirectory(s, r) && AllGood(r) && r.listing == listing &&
    r.opts.only == {} && r.opts.batchSize == b && !r.opts.dryRun && !r.opts.force
  }

  /** Such a run selects the first keys that are not ok. */
  lemma {:induction false} SelectedAre(s: State, r: Run, b: nat)
    requires GoodBy(s, r, r.listing, b) && b > 0
    ensures Selected(s, r) == Elements(Upto(Without(RepoKeys(s, r.listing), OkKeys(s.log)), b))
    ensures KeysOf(WithRepo(s, r)) == RepoKeys(s, r.listing)
  {
    NoSidecarSeen(s, r);
    PendingKeys(s, r.listing, OkKeys(s.log));
    ForcedKeys(s, r.listing);
    var p, batch := PendingIn(s, r.listing, r.opts), Batch(s, r.listing, r.opts);
    assert KeysOf(batch) == Upto(KeysOf(p), b);
    KeysAre(batch);
  }

  lemma KeysAre(ts: seq<Target>)
    ensures Elements(KeysOf(ts)) == set t | t in ts :: t.key
  {
    forall t | t in ts ensures t.key in KeysOf(ts) {
      var i :| 0 <= i < |ts| && ts[i] == t;
      assert KeysOf(ts)[i] == t.key;
    }
  }

  /** It leaves the manifests as they are listed, and makes exactly the selected ones ok. */
  lemma AfterGood(s: State, r: Run, b: nat)
    requires GoodBy(s, r, r.listing, b) && b > 0
    ensures forall k :: k in r.listing ==> k in Step(s, r).store
    ensures RepoKeys(Step(s, r), r.listing) == RepoKeys(s, r.listing)
    ensures forall k :: k in RepoKeys(s, r.listing) ==> (IsOk(Step(s, r).log, k) <==> k in Selected(s, r))
  {
    forall k | k in r.listing ensures k in Step(s, r).store {
      StoreEffect(s, Done(s, r), k);
    }
    forall k | k in r.listing && IsManifestKey(k)
      ensures HasRepo(Step(s, r).store[k]) <==> HasRepo(s.store[k])
      ensures IsOk(Step(s, r).log, k) <==> k in Selected(s, r)
    {
      RepoKept(s, r, k);
      OkAfterRun(s, r, k);
      GoodSelected(s, r, k);
    }
    SameRepoKeys(s, Step(s, r), r.listing);
    RepoKeysAre(s, r.listing);
  }

  lemma {:induction false} SameRepoKeys(s: State, t: State, listing: seq<string>)
    requires forall k :: k in listing ==> k in s.store && k in t.store
    requires forall k :: k in listing && IsManifestKey(k) ==> (HasRepo(t.store[k]) <==> HasRepo(s.store[k]))
    ensures RepoKeys(t, listing) == RepoKeys(s, listing)
  {
    if listing != [] {
      SameRepoKeys(s, t, listing[1..]);
    }
  }

  lemma RepoKept(s: State, r: Run, k: string)
    requires Legal(s, r) && Complete(s, r) && AllGood(r) && IsManifestKey(k) && k in s.store
    ensures k in Step(s, r).store && (HasRepo(Step(s, r).store[k]) <==> HasRepo(s.store[k]))
  {
    if k in Selected(s, r) {
      RunSelects(s, r);
      forall b | Put(k, b) in Done(s, r) ensures HasRepo(b) {
        PutsOfManifest(s, r, k, b);
        assert forall i :: 0 <= i < |r.outcomes| ==> r.outcomes[i] in r.outcomes;
      }
      LastPut(s, Done(s, r), k);
    } else {
      ManifestUntouched(s, r, k);
    }
  }

  /* ---------- Two batches ---------- */

  lemma UptoIs(ks: seq<string>, n: nat, j: nat)
    requires Distinct(ks) && j < |ks|
    ensures ks[j] in Upto(ks, n) <==> j < n
  {
    if n < |ks| && ks[j] in ks[..n] {
      var i :| 0 <= i < n && ks[..n][i] == ks[j];
      assert ks[i] == ks[j];
    }
    if j < n && n < |ks| {
      assert ks[..n][j] == ks[j];
    }
  }

  /** A key is among the first b that are left if fewer than b are left before it. */
  lemma FewBefore(ks: seq<string>, ok: set<string>, j: nat, b: nat)
    requires j < |ks| && ks[j] !in ok && |Without(ks[..j], ok)| < b
    ensures ks[j] in Upto(Without(ks, ok), b)
  {
    var front, back := ks[..j], ks[j + 1..];
    assert ks == front + ([ks[j]] + back);
    assert ([ks[j]] + back)[1..] == back;
    WithoutConcat(front, [ks[j]] + back, ok);
    var w := Without(ks, ok);
    assert w == Without(front, ok) + ([ks[j]] + Without(back, ok));
    var i := |Without(front, ok)|;
    assert w[i] == ks[j];
    if b < |w| {
      assert w[..b][i] == w[i];
    }
  }

  lemma Fewer(small: set<string>, big: set<string>)
    requires small <= big
    ensures |small| <= |big|
  {
    assert big == small + (big - small);
  }

  /** As many keys are left before a key as are different from it in any set that holds them all. */
  lemma LeftBefore(ks: seq<string>, taken: set<string>, j: nat, room: set<string>)
    requires Distinct(ks) && j < |ks| && ks[j] in room
    requires forall i :: 0 <= i < j && ks[i] !in taken ==> ks[i] in room
    ensures |Without(ks[..j], taken)| < |room|
  {
    var left := Without(ks[..j], taken);
    WithoutAre(ks[..j], taken);
    assert Distinct(ks[..j]);
    CountDistinct(left);
    forall k | k in left ensures k in room - {ks[j]} {
      var i :| 0 <= i < j && ks[..j][i] == k;
      assert ks[i] == k;
    }
    Fewer(Elements(left), room - {ks[j]});
    assert room == (room - {ks[j]}) + {ks[j]};
  }

  /** Two batches that each take the first b keys left by what came before take the first 2b. */
  lemma {:induction false} TwoTake(ks: seq<string>, ok: set<string>, b: nat, taken: set<string>, j: nat)
    requires Distinct(ks) && |ok| <= b && taken == Elements(Upto(Without(ks, ok), b))
    requires forall k :: k in taken ==> k in Upto(ks, 2 * b)
    requires j < |ks| && j < 2 * b && ks[j] !in taken
    ensures ks[j] in Upto(Without(ks, taken), b)
  {
    WithoutAre(ks, ok);
    if b < |Without(ks, ok)| {
      TakenFull(ks, ok, b, taken);
      var room := Elements(Upto(ks, 2 * b)) - taken;
      RoomLeft(ks, b, taken);
      forall i | 0 <= i <= j && ks[i] !in taken ensures ks[i] in room {
        UptoIs(ks, 2 * b, i);
      }
      LeftBefore(ks, taken, j, room);
    } else {
      forall i | 0 <= i <= j && ks[i] !in taken ensures ks[i] in ok {
        assert ks[i] in ks;
      }
      LeftBefore(ks, taken, j, ok);
    }
    FewBefore(ks, taken, j, b);
  }

  lemma TakenFull(ks: seq<string>, ok: set<string>, b: nat, taken: set<string>)
    requires Distinct(ks) && taken == Elements(Upto(Without(ks, ok), b)) && b < |Without(ks, ok)|
    ensures |taken| == b
  {
    WithoutAre(ks, ok);
    var first := Without(ks, ok)[..b];
    assert Distinct(first);
    CountDistinct(first);
  }

  lemma RoomLeft(ks: seq<string>, b: nat, taken: set<string>)
    requires Distinct(ks) && |taken| == b && forall k :: k in taken ==> k in Upto(ks, 2 * b)
    ensures |Elements(Upto(ks, 2 * b)) - taken| <= b
  {
    var all := Elements(Upto(ks, 2 * b));
    assert Distinct(Upto(ks, 2 * b));
    CountDistinct(Upto(ks, 2 * b));
    assert all == (all - taken) + taken;
  }

  /* ---------- Histories ---------- */

  /** Good runs with the same listing throughout. */
  ghost predicate GoodHistory(s: State, runs: seq<Run>, listing: seq<string>, b: nat)
    requires LegalHistory(s, runs)
  {
    forall i: nat :: i < |runs| ==> GoodBy(At(s, runs, i), runs[i], listing, b)
  }

  /** Some run of the history sets out to process the key. */
  ghost predicate Processed(s: State, runs: seq<Run>, k: string)
    requires LegalHistory(s, runs)
  {
    exists i: nat :: i < |runs| && SelectedIn(s, runs, i, k)
  }

  ghost predicate SelectedIn(s: State, runs: seq<Run>, i: nat, k: string)
    requires LegalHistory(s, runs) && i < |runs|
  {
    Legal(At(s, runs, i), runs[i]) && k in Selected(At(s, runs, i), runs[i])
  }

  /** The manifests of the history are those it began with. */
  ghost predicate Lists(t: State, listing: seq<string>, ks: seq<string>) {
    (forall k :: k in listing ==> k in t.store) && RepoKeys(t, listing) == ks
  }

  lemma KeysStay(s: State, runs: seq<Run>, listing: seq<string>, b: nat, i: nat)
    requires LegalHistory(s, runs) && GoodHistory(s, runs, listing, b) && b > 0 && i <= |runs|
    requires forall k :: k in listing ==> k in s.store
    ensures Lists(At(s, runs, i), listing, RepoKeys(s, listing))
  {
    var ks := RepoKeys(s, listing);
    var holds := (t: State, j: nat) => Lists(t, listing, ks);
    forall j: nat | j < |runs| && holds(At(s, runs, j), j) ensures holds(At(s, runs, j + 1), j + 1) {
      AtStep(s, runs, j);
      assert GoodBy(At(s, runs, j), runs[j], listing, b);
      AfterGood(At(s, runs, j), runs[j], b);
    }
    AlongRuns(s, runs, holds, i);
  }

  lemma StaysInside(s: State, runs: seq<Run>, listing: seq<string>, b: nat, i: nat, k: string)
    requires LegalHistory(s, runs) && GoodHistory(s, runs, listing, b) && b > 0 && i < |runs|
    requires OkListed(s) && |OkKeys(s.log)| <= b && SelectedIn(s, runs, i, k)
    requires forall m :: m in listing ==> m in s.store
    ensures k in Upto(RepoKeys(s, listing), 2 * b)
  {
    var t, r := At(s, runs, i), runs[i];
    assert GoodBy(t, r, listing, b);
    forall j: nat | j < |runs| ensures ByDirectory(At(s, runs, j), runs[j]) && runs[j].opts.batchSize == b {
      assert GoodBy(At(s, runs, j), runs[j], listing, b);
    }
    NeverPastTwoBatches(s, runs, b, i);
    KeysStay(s, runs, listing, b, i);
    SelectedAre(t, r, b);
    AmongIsUpto(WithRepo(t, r), RepoKeys(s, listing), 2 * b, k);
  }

  lemma AmongIsUpto(ts: seq<Target>, ks: seq<string>, n: nat, k: string)
    requires KeysOf(ts) == ks && AmongFirst(ts, n, k)
    ensures k in Upto(ks, n)
  {
    var j :| 0 <= j < |ts| && j < n && ts[j].key == k;
    assert ks[j] == k;
    if n < |ks| {
      assert ks[..n][j] == k;
    }
  }

  /** The first two runs take the first two batches. */
  lemma {:induction false} TwoRuns(s: State, r1: Run, r2: Run, listing: seq<string>, b: nat, k: string)
    requires GoodBy(s, r1, listing, b) && GoodBy(Step(s, r1), r2, listing, b) && b > 0 && |OkKeys(s.log)| <= b
    requires forall m :: m in Selected(s, r1) ==> m in Upto(RepoKeys(s, listing), 2 * b)
    requires k in Upto(RepoKeys(s, listing), 2 * b)
    ensures k in Selected(s, r1) || k in Selected(Step(s, r1), r2)
  {
    var ks := RepoKeys(s, listing);
    RepoKeysAre(s, listing);
    var j :| 0 <= j < |Upto(ks, 2 * b)| && Upto(ks, 2 * b)[j] == k;
    assert ks[j] == k;
    if k !in Selected(s, r1) {
      SelectedAre(s, r1, b);
      AfterGood(s, r1, b);
      SelectedAre(Step(s, r1), r2, b);
      TwoTake(ks, OkKeys(s.log), b, Selected(s, r1), j);
      SameWithout(ks, OkKeys(Step(s, r1).log), Selected(s, r1));
    }
  }

  lemma {:induction false} SameWithout(ks: seq<string>, x: set<string>, y: set<string>)
    requires forall k :: k in ks ==> (k in x <==> k in y)
    ensures Without(ks, x) == Without(ks, y)
  {
    if ks != [] {
      assert ks[0] in ks && forall k :: k in ks[1..] ==> k in ks;
      SameWithout(ks[1..], x, y);
    }
  }

  /** Two or more good runs with directory discovery process exactly the first two batches of the
      manifests with a repo, however many runs there are. */
  lemma {:induction false} ReachesTwoBatches(s: State, runs: seq<Run>, listing: seq<string>, b: nat, k: string)
    requires LegalHistory(s, runs) && GoodHistory(s, runs, listing, b) && b > 0 && |runs| >= 2
    requires OkListed(s) && |OkKeys(s.log)| <= b && forall m :: m in listing ==> m in s.store
    ensures Processed(s, runs, k) <==> k in Upto(RepoKeys(s, listing), 2 * b)
  {
    if Processed(s, runs, k) {
      var i: nat :| i < |runs| && SelectedIn(s, runs, i, k);
      StaysInside(s, runs, listing, b, i, k);
    }
    if k in Upto(RepoKeys(s, listing), 2 * b) {
      AtStep(s, runs, 0);
      assert GoodBy(At(s, runs, 0), runs[0], listing, b) && GoodBy(At(s, runs, 1), runs[1], listing, b);
      forall m | m in Selected(s, runs[0]) ensures m in Upto(RepoKeys(s, listing), 2 * b) {
        assert SelectedIn(s, runs, 0, m);
        StaysInside(s, runs, listing, b, 0, m);
      }
      TwoRuns(s, runs[0], runs[1], listing, b, k);
      assert SelectedIn(s, runs, 0, k) || SelectedIn(s, runs, 1, k);
    }
  }

  /** So they process every manifest with a repo if and only if there are at most two batches. */
  lemma AllProcessed(s: State, runs: seq<Run>, listing: seq<string>, b: nat)
    requires LegalHistory(s, runs) && GoodHistory(s, runs, listing, b) && b > 0 && |runs| >= 2
    requires OkListed(s) && |OkKeys(s.log)| <= b && forall m :: m in listing ==> m in s.store
    ensures (forall k :: k in RepoKeys(s, listing) ==> Processed(s, runs, k)) <==> |RepoKeys(s, listing)| <= 2 * b
  {
    var ks := RepoKeys(s, listing);
    forall k ensures Processed(s, runs, k) <==> k in Upto(ks, 2 * b) {
      ReachesTwoBatches(s, runs, listing, b, k);
    }
    if |ks| > 2 * b {
      assert GoodBy(At(s, runs, 0), runs[0], listing, b);
      RepoKeysAre(s, listing);
      UptoIs(ks, 2 * b, 2 * b);
      assert ks[2 * b] in ks;
    }
  }
}
