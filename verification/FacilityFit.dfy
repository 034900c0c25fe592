/** Matching a generated facility to a generated design: which equipment is added so that every
    process of the design is served. */
module FacilityFit {

  /** The fields that are compared; the random ones are not modelled. */
  datatype Equipment = Equipment(kind: string, process: string)

  /** Equipment type by process, and process URI by equipment type. */
  datatype Tables = Tables(equipment: map<string, string>, specs: map<string, string>)

  function Wiki(kind: string): string {
    "https://en.wikipedia.org/wiki/" +
    seq(|kind|, i requires 0 <= i < |kind| => if kind[i] == ' ' then '_' else kind[i])
  }

  function Uri(t: Tables, kind: string): string {
    if kind in t.specs then t.specs[kind] else Wiki(kind)
  }

  function Made(t: Tables, kind: string): Equipment { Equipment(Wiki(kind), Uri(t, kind)) }

  /** `generate_equipment` */
  method GenerateEquipment(t: Tables, kind: string) returns (e: Equipment)
    ensures e == Made(t, kind)
  {
    if kind !in t.specs {
      return Equipment(Wiki(kind), Wiki(kind));
    }
    e := Equipment(Wiki(kind), t.specs[kind]);
  }

  /** The equipment types to be added, in the order in which the processes ask for them. */
  function Missing(t: Tables, procs: seq<string>, have: set<string>): seq<string> {
    if procs == [] then []
    else if procs[0] !in t.equipment || Uri(t, t.equipment[procs[0]]) in have then Missing(t, procs[1..], have)
    else
      var kind := t.equipment[procs[0]];
      [kind] + Missing(t, procs[1..], have + {Uri(t, kind)})
  }

  function AllMade(t: Tables, kinds: seq<string>): seq<Equipment> {
    if kinds == [] then [] else [Made(t, kinds[0])] + AllMade(t, kinds[1..])
  }

  function Uris(equipment: seq<Equipment>): set<string> {
    set e | e in equipment :: e.process
  }

  function UrisOf(t: Tables, kinds: seq<string>): set<string> {
    set k | k in kinds :: Uri(t, k)
  }

  /** The process list with the pages of `kinds` appended where they are not yet listed. */
  function WithPages(pages: seq<string>, kinds: seq<string>): seq<string>
    decreases |kinds|
  {
    if kinds == [] then pages
    else WithPages(if Wiki(kinds[0]) in pages then pages else pages + [Wiki(kinds[0])], kinds[1..])
  }

  class Facility {
    var equipment: seq<Equipment>
    var processes: seq<string>

    constructor (equipment: seq<Equipment>, processes: seq<string>)
      ensures this.equipment == equipment && this.processes == processes
    {
      this.equipment, this.processes := equipment, processes;
    }

    /** The reconciliation loop. The set it keeps is that of the URIs in the equipment list. */
    method Reconcile(t: Tables, procs: seq<string>)
      modifies this
      ensures var kinds := Missing(t, procs, Uris(old(equipment)));
              equipment == old(equipment) + AllMade(t, kinds) && processes == WithPages(old(processes), kinds)
      ensures Fitted(t, procs, old(equipment), equipment, old(processes), processes)
    {
      ReconcileFits(t, procs, equipment, processes);
      var existing := Uris(equipment);
      assert procs[0..] == procs;
      for i := 0 to |procs|
        invariant existing == Uris(equipment)
        invariant equipment + AllMade(t, Missing(t, procs[i..], existing)) ==
                  old(equipment) + AllMade(t, Missing(t, procs, Uris(old(equipment))))
        invariant WithPages(processes, Missing(t, procs[i..], existing)) ==
                  WithPages(old(processes), Missing(t, procs, Uris(old(equipment))))
      {
        assert procs[i..][0] == procs[i] && procs[i..][1..] == procs[i + 1..];
        if procs[i] !in t.equipment {
          continue;
        }
        var kind := t.equipment[procs[i]];
        if Uri(t, kind) !in existing {
          var made := GenerateEquipment(t, kind);
          ghost var rest := Missing(t, procs[i + 1..], existing + {made.process});
          assert Missing(t, procs[i..], existing) == [kind] + rest;
          assert ([kind] + rest)[1..] == rest;
          Joined(equipment, made, AllMade(t, rest));
          assert Uris(equipment + [made]) == Uris(equipment) + {made.process};
          equipment := equipment + [made];
          existing := existing + {made.process};
          if Wiki(kind) !in processes {
            processes := processes + [Wiki(kind)];
          }
        }
      }
    }
  }

  lemma Joined(a: seq<Equipment>, x: Equipment, b: seq<Equipment>)
    ensures a + ([x] + b) == a + [x] + b
  {}

  /* ---------- What the loop achieves ---------- */

  lemma {:induction false} MadeUris(t: Tables, kinds: seq<string>)
    ensures Uris(AllMade(t, kinds)) == UrisOf(t, kinds) && |AllMade(t, kinds)| == |kinds|
  {
    if kinds != [] {
      MadeUris(t, kinds[1..]);
      OneUri(t, kinds[0], kinds[1..]);
      assert kinds == [kinds[0]] + kinds[1..];
      var rest := AllMade(t, kinds[1..]);
      assert Uris([Made(t, kinds[0])] + rest) == {Uri(t, kinds[0])} + Uris(rest);
    }
  }

  /** The URIs a design needs. */
  function Needed(t: Tables, procs: seq<string>): set<string> {
    set p | p in procs && p in t.equipment :: Uri(t, t.equipment[p])
  }

  /** What is added is exactly what is needed and not there, one item for every URI. */
  lemma {:induction false} AddsExactly(t: Tables, procs: seq<string>, have: set<string>)
    ensures UrisOf(t, Missing(t, procs, have)) == Needed(t, procs) - have
    ensures |Missing(t, procs, have)| == |Needed(t, procs) - have|
    decreases |procs|
  {
    if procs != [] {
      var rest := procs[1..];
      NeededHead(t, procs);
      if procs[0] !in t.equipment || Uri(t, t.equipment[procs[0]]) in have {
        AddsExactly(t, rest, have);
        assert Needed(t, procs) - have == Needed(t, rest) - have;
      } else {
        var kind := t.equipment[procs[0]];
        AddsExactly(t, rest, have + {Uri(t, kind)});
        OneUri(t, kind, Missing(t, rest, have + {Uri(t, kind)}));
        OneMore(Uri(t, kind), Needed(t, rest), have);
      }
    }
  }

  lemma OneMore(u: string, rest: set<string>, have: set<string>)
    requires u !in have
    ensures ({u} + rest) - have == {u} + (rest - (have + {u}))
    ensures |({u} + rest) - have| == 1 + |rest - (have + {u})|
  {
    assert ({u} + rest) - have == {u} + (rest - (have + {u}));
  }

  lemma NeededHead(t: Tables, procs: seq<string>)
    requires procs != []
    ensures Needed(t, procs) ==
            (if procs[0] in t.equipment then {Uri(t, t.equipment[procs[0]])} else {}) + Needed(t, procs[1..])
  {
    assert procs == [procs[0]] + procs[1..];
  }

  lemma OneUri(t: Tables, kind: string, kinds: seq<string>)
    ensures UrisOf(t, [kind] + kinds) == {Uri(t, kind)} + UrisOf(t, kinds)
  {
    assert forall k :: k in [kind] + kinds <==> k == kind || k in kinds;
  }

  /** After reconciling, every process with a known equipment type is served; exactly the missing
      URIs were added, one item each; and reconciling again would add nothing. */
  lemma Reconciled(t: Tables, procs: seq<string>, before: seq<Equipment>)
    ensures var kinds := Missing(t, procs, Uris(before));
            var after := before + AllMade(t, kinds);
            Uris(after) == Uris(before) + Needed(t, procs) &&
            |after| == |before| + |Needed(t, procs) - Uris(before)| &&
            Missing(t, procs, Uris(after)) == []
  {
    var kinds := Missing(t, procs, Uris(before));
    AddsExactly(t, procs, Uris(before));
    MadeUris(t, kinds);
    UrisConcat(before, AllMade(t, kinds));
    NothingMissing(t, procs, Uris(before + AllMade(t, kinds)));
  }

  lemma UrisConcat(a: seq<Equipment>, b: seq<Equipment>)
    ensures Uris(a + b) == Uris(a) + Uris(b)
  {}

  lemma NothingMissing(t: Tables, procs: seq<string>, have: set<string>)
    requires Needed(t, procs) <= have
    ensures Missing(t, procs, have) == []
  {
    AddsExactly(t, procs, have);
    assert Needed(t, procs) - have == {};
  }

  /* ---------- The same, written out ---------- */

  const WIKI := "https://en.wikipedia.org/wiki/"

  /** The page of an equipment type: its name with underscores for blanks. */
  ghost predicate IsPage(u: string, kind: string) {
    |u| == |WIKI| + |kind| && u[..|WIKI|] == WIKI &&
    forall i :: 0 <= i < |kind| ==> u[|WIKI| + i] == if kind[i] == ' ' then '_' else kind[i]
  }

  /** The URI of its process: the one that is specified, or its page. */
  ghost predicate IsUri(t: Tables, u: string, kind: string) {
    if kind in t.specs then u == t.specs[kind] else IsPage(u, kind)
  }

  lemma PageIs(t: Tables, kind: string)
    ensures IsPage(Wiki(kind), kind) && IsUri(t, Uri(t, kind), kind)
  {}

  /** A process that is asked for and has an equipment type, which the item is of. */
  ghost predicate MadeFor(t: Tables, procs: seq<string>, e: Equipment, p: string) {
    p in procs && p in t.equipment && IsPage(e.kind, t.equipment[p]) && IsUri(t, e.process, t.equipment[p])
  }

  /** Items made for the processes asked for, each for a URI that no item in front of it has. */
  ghost predicate Added(t: Tables, procs: seq<string>, before: seq<Equipment>, after: seq<Equipment>) {
    before <= after &&
    forall i :: |before| <= i < |after| ==> Asked(t, procs, after[i]) && NewAt(after, i)
  }

  ghost predicate Asked(t: Tables, procs: seq<string>, e: Equipment) { exists p :: MadeFor(t, procs, e, p) }

  ghost predicate NewAt(equipment: seq<Equipment>, i: nat)
    requires i < |equipment|
  {
    forall j :: 0 <= j < i ==> equipment[j].process != equipment[i].process
  }

  /** Every process with an equipment type has an item with its URI. */
  ghost predicate Served(t: Tables, procs: seq<string>, after: seq<Equipment>) {
    forall p :: p in procs && p in t.equipment ==> exists e :: e in after && IsUri(t, e.process, t.equipment[p])
  }

  lemma {:induction false} AddedOnly(t: Tables, procs: seq<string>, before: seq<Equipment>)
    ensures Added(t, procs, before, before + AllMade(t, Missing(t, procs, Uris(before))))
    decreases |procs|
  {
    if procs != [] {
      var p, rest := procs[0], procs[1..];
      assert procs == [p] + rest;
      if p !in t.equipment || Uri(t, t.equipment[p]) in Uris(before) {
        AddedOnly(t, rest, before);
        MoreAsked(t, rest, procs, before, before + AllMade(t, Missing(t, rest, Uris(before))));
      } else {
        var made := Made(t, t.equipment[p]);
        PageIs(t, t.equipment[p]);
        AddedOnly(t, rest, before + [made]);
        assert Uris(before + [made]) == Uris(before) + {made.process};
        var more := AllMade(t, Missing(t, rest, Uris(before + [made])));
        MoreAsked(t, rest, procs, before + [made], before + [made] + more);
        Joined(before, made, more);
        assert MadeFor(t, procs, made, p);
        OneAdded(t, procs, before, made, before + [made] + more);
      }
    }
  }

  lemma MoreAsked(t: Tables, rest: seq<string>, procs: seq<string>, before: seq<Equipment>, after: seq<Equipment>)
    requires Added(t, rest, before, after) && forall p :: p in rest ==> p in procs
    ensures Added(t, procs, before, after)
  {
    forall i | |before| <= i < |after| ensures Asked(t, procs, after[i]) && NewAt(after, i) {
      assert Asked(t, rest, after[i]);
      var p :| MadeFor(t, rest, after[i], p);
      assert MadeFor(t, procs, after[i], p);
    }
  }

  lemma OneAdded(t: Tables, procs: seq<string>, before: seq<Equipment>, made: Equipment, after: seq<Equipment>)
    requires Added(t, procs, before + [made], after) && made.process !in Uris(before)
    requires Asked(t, procs, made)
    ensures Added(t, procs, before, after)
  {
    var n := |before|;
    assert after[..n + 1] == before + [made];
    assert after[n] == after[..n + 1][n] == made;
    forall j | 0 <= j < n ensures after[j].process != made.process {
      assert after[j] == after[..n + 1][j] == before[j] && before[j] in before;
    }
    assert NewAt(after, n);
    assert before == after[..n + 1][..n] == after[..n];
    forall i | n <= i < |after| ensures Asked(t, procs, after[i]) && NewAt(after, i) {}
  }

  /** Reconciling serves every process with an equipment type, by items of its own type, and adds nothing
      that is not needed or already there. */
  lemma {:induction false} ReconcileServes(t: Tables, procs: seq<string>, before: seq<Equipment>)
    ensures var after := before + AllMade(t, Missing(t, procs, Uris(before)));
            Added(t, procs, before, after) && Served(t, procs, after)
  {
    var after := before + AllMade(t, Missing(t, procs, Uris(before)));
    AddedOnly(t, procs, before);
    Reconciled(t, procs, before);
    forall p | p in procs && p in t.equipment ensures exists e :: e in after && IsUri(t, e.process, t.equipment[p]) {
      PageIs(t, t.equipment[p]);
      assert Uri(t, t.equipment[p]) in Needed(t, procs);
      assert Uri(t, t.equipment[p]) in Uris(after);
    }
  }

  /** The pages of all added types are listed, behind those that were there, each once. */
  ghost predicate Listed(pages: seq<string>, kinds: seq<string>, after: seq<string>) {
    pages <= after && (forall x :: x in after <==> x in pages || PageOfOne(x, kinds)) &&
    forall i, j :: |pages| <= i < |after| && 0 <= j < i ==> after[j] != after[i]
  }

  ghost predicate PageOfOne(x: string, kinds: seq<string>) { exists k :: k in kinds && IsPage(x, k) }

  lemma {:induction false} PagesListed(pages: seq<string>, kinds: seq<string>)
    ensures Listed(pages, kinds, WithPages(pages, kinds))
    decreases |kinds|
  {
    if kinds != [] {
      var next := if Wiki(kinds[0]) in pages then pages else pages + [Wiki(kinds[0])];
      PagesListed(next, kinds[1..]);
      FirstListed(pages, kinds, next, WithPages(next, kinds[1..]));
    }
  }

  lemma FirstListed(pages: seq<string>, kinds: seq<string>, next: seq<string>, after: seq<string>)
    requires kinds != [] && Listed(next, kinds[1..], after)
    requires next == if Wiki(kinds[0]) in pages then pages else pages + [Wiki(kinds[0])]
    ensures Listed(pages, kinds, after)
  {
    FrontPages(pages, next, after);
    forall x ensures PageOfOne(x, kinds) <==> x == Wiki(kinds[0]) || PageOfOne(x, kinds[1..]) {
      OnePage(x, kinds[0]);
      assert kinds == [kinds[0]] + kinds[1..];
    }
    forall j | 0 <= j < |pages| ensures after[j] == pages[j] {
      assert after[j] == after[..|pages|][j];
    }
    if next != pages {
      assert after[|pages|] == after[..|next|][|pages|] == Wiki(kinds[0]);
    }
  }

  /** The type of one of the items from `n` on. */
  ghost predicate KindBehind(x: string, n: nat, equipment: seq<Equipment>) {
    exists i :: n <= i < |equipment| && equipment[i].kind == x
  }

  /** The pages listed are the types of the items added, besides those that were there. */
  lemma PagesAre(t: Tables, kinds: seq<string>, before: seq<Equipment>, pages: seq<string>)
    ensures pages <= WithPages(pages, kinds)
    ensures forall x :: x in WithPages(pages, kinds) <==>
              x in pages || KindBehind(x, |before|, before + AllMade(t, kinds))
  {
    PagesListed(pages, kinds);
    MadeKinds(t, kinds);
    var after := before + AllMade(t, kinds);
    forall x ensures PageOfOne(x, kinds) <==> KindBehind(x, |before|, after) {
      if PageOfOne(x, kinds) {
        var k :| k in kinds && IsPage(x, k);
        OnePage(x, k);
        var i :| 0 <= i < |kinds| && kinds[i] == k;
        assert after[|before| + i].kind == x;
      }
      if i :| |before| <= i < |after| && after[i].kind == x {
        assert after[i] == AllMade(t, kinds)[i - |before|];
        OnePage(x, kinds[i - |before|]);
      }
    }
  }

  /** A facility fitted to a design: what was added and why, and the pages listed for it. */
  ghost predicate Fitted(t: Tables, procs: seq<string>, before: seq<Equipment>, after: seq<Equipment>,
                         pages: seq<string>, listed: seq<string>)
  {
    Added(t, procs, before, after) && Served(t, procs, after) && pages <= listed &&
    forall x :: x in listed <==> x in pages || KindBehind(x, |before|, after)
  }

  lemma ReconcileFits(t: Tables, procs: seq<string>, before: seq<Equipment>, pages: seq<string>)
    ensures var kinds := Missing(t, procs, Uris(before));
            Fitted(t, procs, before, before + AllMade(t, kinds), pages, WithPages(pages, kinds))
  {
    ReconcileServes(t, procs, before);
    PagesAre(t, Missing(t, procs, Uris(before)), before, pages);
  }

  lemma {:induction false} MadeKinds(t: Tables, kinds: seq<string>)
    ensures |AllMade(t, kinds)| == |kinds|
    ensures forall i :: 0 <= i < |kinds| ==> AllMade(t, kinds)[i].kind == Wiki(kinds[i])
  {
    if kinds != [] {
      MadeKinds(t, kinds[1..]);
    }
  }

  lemma OnePage(x: string, kind: string)
    ensures IsPage(x, kind) <==> x == Wiki(kind)
  {
    if IsPage(x, kind) {
      assert x == x[..|WIKI|] + x[|WIKI|..];
      assert x[|WIKI|..] == Wiki(kind)[|WIKI|..];
    }
  }

  lemma FrontPages(pages: seq<string>, next: seq<string>, after: seq<string>)
    requires pages <= next <= after
    ensures pages <= after
  {}
}
