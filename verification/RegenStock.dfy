/** A store with one manifest more than two batches, whose last manifest is never processed. */
module RegenStock {
  import opened Text
  import opened RegenKeys
  import opened RegenRun
  import opened RegenHistory
  import opened RegenSafety
  import opened RegenProgress
  import opened RegenDiscovery
  import opened RegenReach

  /* ---------- Good runs exist ---------- */

  /** The listing is what directory discovery finds in the store, each key once. */
  ghost predicate Found(s: State, listing: seq<string>) {
    Distinct(listing) && forall k :: k in listing <==> k in s.store && Discovered(k)
  }

  const GOOD := Outcome(Some(Json("r")), Some(Broken), true)

  /** A finished run over this listing in which every job succeeds. */
  function GoodRunOf(s: State, listing: seq<string>, b: nat): Run
    requires forall k :: k in listing ==> k in s.store
  {
    var opts := Options({}, b, false, false);
    var outcomes := seq(|Batch(s, listing, opts)|, _ => GOOD);
    Run(listing, opts, outcomes, |RunWrites(s, listing, opts, outcomes)|)
  }

  lemma GoodRunIs(s: State, listing: seq<string>, b: nat)
    requires Found(s, listing)
    ensures GoodBy(s, GoodRunOf(s, listing, b), listing, b)
  {
    var r := GoodRunOf(s, listing, b);
    assert forall o :: o in r.outcomes ==> o == GOOD;
    RepoR("r");
  }

  lemma RepoR(r: string)
    requires r == "r"
    ensures HasRepo(Json(r))
  {
    assert Strip(r) == r;
  }

  /** No run adds a key that directory discovery would show. */
  lemma NothingNew(s: State, r: Run, k: string)
    requires Legal(s, r) && Discovered(k) && k !in s.store
    ensures k !in Step(s, r).store
  {
    var batch := Batch(s, r.listing, r.opts);
    RunSelects(s, r);
    forall t | t in batch ensures t.key != k && SidecarKey(t.key) != k {
      SidecarOfManifest(t.key);
      SidecarsHidden(SidecarKey(t.key));
    }
    NotPut(batch, r.outcomes, k);
    PreambleCount(s, r, k);
    if r.cut < |Writes(s, r)| {
      PrefixCount(Writes(s, r), r.cut, k);
    }
    StoreEffect(s, Done(s, r), k);
  }

  /** So what it shows is the same before every run. */
  lemma FoundStays(s: State, r: Run, listing: seq<string>)
    requires Legal(s, r) && Found(s, listing)
    ensures Found(Step(s, r), listing)
  {
    forall k | Discovered(k) ensures k in listing <==> k in Step(s, r).store {
      if k in s.store {
        StoreEffect(s, Done(s, r), k);
      } else {
        NothingNew(s, r, k);
      }
    }
  }

  /** There are histories of any number of good runs. */
  lemma {:induction false} SomeGoodRuns(s: State, listing: seq<string>, b: nat, n: nat) returns (runs: seq<Run>)
    requires Found(s, listing)
    ensures |runs| == n && LegalHistory(s, runs) && GoodHistory(s, runs, listing, b)
    decreases n
  {
    if n == 0 {
      runs := [];
    } else {
      var r := GoodRunOf(s, listing, b);
      GoodRunIs(s, listing, b);
      FoundStays(s, r, listing);
      var rest := SomeGoodRuns(Step(s, r), listing, b, n - 1);
      OneMoreRun(s, r, rest, listing, b);
      runs := [r] + rest;
    }
  }

  lemma {:induction false} OneMoreRun(s: State, r: Run, rest: seq<Run>, listing: seq<string>, b: nat)
    requires GoodBy(s, r, listing, b) && LegalHistory(Step(s, r), rest) && GoodHistory(Step(s, r), rest, listing, b)
    ensures LegalHistory(s, [r] + rest) && GoodHistory(s, [r] + rest, listing, b)
  {
    var runs := [r] + rest;
    assert runs[1..] == rest;
    forall i: nat | i < |runs| ensures GoodBy(At(s, runs, i), runs[i], listing, b) {
      if i > 0 {
        assert GoodBy(At(Step(s, r), rest, i - 1), rest[i - 1], listing, b);
      }
    }
  }

  /* ---------- The store ---------- */

  function Letters(n: nat): (r: string)
    ensures |r| == n && forall i :: 0 <= i < n ==> r[i] == 'a'
  {
    seq(n, _ => 'a')
  }

  function StockKey(i: nat): string { "okh" + "/" + (Letters(i + 1) + ".json") }

  function StockKeys(n: nat): (r: seq<string>)
    ensures |r| == n && forall i :: 0 <= i < n ==> r[i] == StockKey(i)
  {
    seq(n, i requires 0 <= i < n => StockKey(i))
  }

  /** A store with `n` manifests and an empty log. */
  function Stock(n: nat): State {
    State([], map k | k in StockKeys(n) :: Json("r"), [])
  }

  lemma StockKeyIs(i: nat)
    ensures Discovered(StockKey(i)) && IsManifestKey(StockKey(i))
  {
    var k := StockKey(i);
    StockName(k, "okh", i);
    ManifestKeyIs(k);
    assert k[..4] == "okh/";
    assert k[|k| - 5..] == ".json" && k[|k| - 6] == 'a';
    if IsSidecarKey(k) {
      SixthLast(k);
    }
  }

  lemma StockName(k: string, dir: string, i: nat)
    requires k == dir + "/" + (Letters(i + 1) + ".json")
    ensures !LooksLikeBom(k)
  {
    var base := Letters(i + 1) + ".json";
    assert '/' !in base;
    BaseNameOf(dir, base);
    StockBase(base, i);
  }

  lemma SixthLast(s: string)
    requires EndsWith(s, "-bom.json")
    ensures |s| >= 9 && s[|s| - 6] == 'm'
  {
    assert s[|s| - 6] == s[|s| - 9..][3];
  }

  lemma StockBase(base: string, i: nat)
    requires base == Letters(i + 1) + ".json"
    ensures Lower(base) != "bom.json" && !EndsWith(Lower(base), "-bom.json") && !("bom_" <= Lower(base))
  {
    var low := Lower(base);
    assert low[0] == 'a';
    assert low[|low| - 6] == 'a';
    if EndsWith(low, "-bom.json") {
      SixthLast(low);
    }
    assert low[..4][0] == 'a';
  }

  lemma StockIs(n: nat)
    ensures Found(Stock(n), StockKeys(n)) && RepoKeys(Stock(n), StockKeys(n)) == StockKeys(n)
    ensures OkKeys(Stock(n).log) == {}
  {
    var ks := StockKeys(n);
    forall i, j | 0 <= i < j < n ensures ks[i] != ks[j] {
      assert |StockKey(i)| != |StockKey(j)|;
    }
    forall k | k in ks ensures Discovered(k) && IsManifestKey(k) && HasRepo(Stock(n).store[k]) {
      var i :| 0 <= i < n && ks[i] == k;
      StockKeyIs(i);
      RepoR("r");
    }
    AllListed(Stock(n), ks);
  }

  lemma {:induction false} AllListed(s: State, ks: seq<string>)
    requires forall k :: k in ks ==> k in s.store && IsManifestKey(k) && HasRepo(s.store[k])
    ensures RepoKeys(s, ks) == ks
  {
    if ks != [] {
      AllListed(s, ks[1..]);
    }
  }

  /** With one manifest more than two batches, runs that all succeed process every other one and
      never the last, however many there are. */
  lemma LastOneStarves(b: nat, n: nat) returns (s: State, listing: seq<string>, runs: seq<Run>)
    requires b > 0 && n >= 2
    ensures s == Stock(2 * b + 1) && listing == StockKeys(2 * b + 1) && Found(s, listing)
    ensures |runs| == n && LegalHistory(s, runs) && GoodHistory(s, runs, listing, b)
    ensures forall i: nat :: i <= 2 * b ==> (Processed(s, runs, StockKey(i)) <==> i < 2 * b)
  {
    s, listing := Stock(2 * b + 1), StockKeys(2 * b + 1);
    StockIs(2 * b + 1);
    runs := SomeGoodRuns(s, listing, b, n);
    forall i: nat | i <= 2 * b ensures Processed(s, runs, StockKey(i)) <==> i < 2 * b {
      ReachesTwoBatches(s, runs, listing, b, StockKey(i));
      UptoIs(listing, 2 * b, i);
    }
  }
}
