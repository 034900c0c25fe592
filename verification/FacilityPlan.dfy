/** How many facilities are planned for every process that the designs use. */
module FacilityPlan {
  import opened Text

  /** The process names of a design, of its parts and of its sub-parts; what is absent is empty. */
  datatype Design = Design(processes: seq<string>, parts: seq<seq<string>>, subParts: seq<seq<string>>)

  /** The taxonomy: a key for a process name it knows. */
  type Taxonomy = string -> Option<string>

  /** The keys of a list of names; an empty key counts as none. */
  function Keys(tax: Taxonomy, names: seq<string>): set<string> {
    set x | x in names && tax(x).Some? && tax(x).value != "" :: tax(x).value
  }

  function KeysOfAll(tax: Taxonomy, lists: seq<seq<string>>): set<string> {
    if lists == [] then {} else Keys(tax, lists[0]) + KeysOfAll(tax, lists[1..])
  }

  /** The keys that count towards the frequency of a process: sub-parts do not. */
  function Counted(tax: Taxonomy, d: Design): set<string> {
    Keys(tax, d.processes) + KeysOfAll(tax, d.parts)
  }

  function Mentioned(tax: Taxonomy, d: Design): set<string> {
    Counted(tax, d) + KeysOfAll(tax, d.subParts)
  }

  function MentionedIn(tax: Taxonomy, ds: seq<Design>): set<string> {
    if ds == [] then {} else Mentioned(tax, ds[0]) + MentionedIn(tax, ds[1..])
  }

  /** In how many designs a process counts. */
  function Uses(tax: Taxonomy, ds: seq<Design>, p: string): nat {
    if ds == [] then 0 else (if p in Counted(tax, ds[0]) then 1 else 0) + Uses(tax, ds[1..], p)
  }

  /** Facilities for a process used in `count` of `total` designs. */
  function Staff(count: nat, total: nat): nat {
    if count == 0 || 10 * count <= 3 * total then 2
    else if 10 * count <= 6 * total then 3
    else 4
  }

  /* ---------- The same, written out ---------- */

  /** The taxonomy has this key for one of the names. */
  predicate Among(tax: Taxonomy, names: seq<string>, p: string) {
    p != "" && exists x :: x in names && tax(x) == Some(p)
  }

  /** The process is used by the design itself or by one of its parts. */
  predicate UsedBy(tax: Taxonomy, d: Design, p: string) {
    Among(tax, d.processes, p) || exists l :: l in d.parts && Among(tax, l, p)
  }

  predicate NamedBy(tax: Taxonomy, d: Design, p: string) {
    UsedBy(tax, d, p) || exists l :: l in d.subParts && Among(tax, l, p)
  }

  lemma {:induction false} KeysAre(tax: Taxonomy, lists: seq<seq<string>>, p: string)
    ensures p in KeysOfAll(tax, lists) <==> exists l :: l in lists && Among(tax, l, p)
  {
    if lists != [] {
      KeysAre(tax, lists[1..], p);
      assert lists == [lists[0]] + lists[1..];
      assert p in Keys(tax, lists[0]) <==> Among(tax, lists[0], p);
    }
  }

  lemma {:induction false} CountedAre(tax: Taxonomy, d: Design, p: string)
    ensures p in Counted(tax, d) <==> UsedBy(tax, d, p)
    ensures p in Mentioned(tax, d) <==> NamedBy(tax, d, p)
  {
    KeysAre(tax, d.parts, p);
    KeysAre(tax, d.subParts, p);
    assert p in Keys(tax, d.processes) <==> Among(tax, d.processes, p);
  }

  /** The designs that use a process, by place. */
  function Users(tax: Taxonomy, ds: seq<Design>, p: string): set<nat> {
    set i: nat | i < |ds| && UsedBy(tax, ds[i], p)
  }

  lemma {:induction false} UsesCount(tax: Taxonomy, ds: seq<Design>, p: string)
    ensures Uses(tax, ds, p) == |Users(tax, ds, p)|
    decreases |ds|
  {
    if ds != [] {
      var n := |ds| - 1;
      assert ds == ds[..n] + [ds[n]];
      UsesConcat(tax, ds[..n], [ds[n]], p);
      UsesCount(tax, ds[..n], p);
      CountedAre(tax, ds[n], p);
      assert [ds[n]][1..] == [];
      OneMoreUser(tax, ds, p);
    }
  }

  lemma OneMoreUser(tax: Taxonomy, ds: seq<Design>, p: string)
    requires ds != []
    ensures var n := |ds| - 1;
            |Users(tax, ds, p)| == |Users(tax, ds[..n], p)| + if UsedBy(tax, ds[n], p) then 1 else 0
  {
    var n := |ds| - 1;
    var front := Users(tax, ds[..n], p);
    assert n !in front && Users(tax, ds, p) == front + (if UsedBy(tax, ds[n], p) then {n} else {});
  }

  method AddKeys(tax: Taxonomy, names: seq<string>, start: set<string>) returns (keys: set<string>)
    ensures keys == start + Keys(tax, names)
  {
    keys := start;
    for i := 0 to |names|
      invariant keys == start + Keys(tax, names[..i])
    {
      assert names[..i + 1] == names[..i] + [names[i]];
      match tax(names[i]) {
        case Some(key) =>
          if key != "" {
            keys := keys + {key};
          }
        case None =>
      }
      assert Keys(tax, names[..i + 1]) == Keys(tax, names[..i]) + Keys(tax, [names[i]]);
    }
    assert names[..|names|] == names;
  }

  method AddAllKeys(tax: Taxonomy, lists: seq<seq<string>>, start: set<string>) returns (keys: set<string>)
    ensures keys == start + KeysOfAll(tax, lists)
  {
    keys := start;
    assert lists[0..] == lists;
    for i := 0 to |lists|
      invariant keys + KeysOfAll(tax, lists[i..]) == start + KeysOfAll(tax, lists)
    {
      assert lists[i..][0] == lists[i] && lists[i..][1..] == lists[i + 1..];
      keys := AddKeys(tax, lists[i], keys);
    }
  }

  /** `analyze_okh_process_requirements` */
  method Analyze(tax: Taxonomy, designs: seq<Design>) returns (plan: map<string, nat>)
    ensures plan.Keys == MentionedIn(tax, designs)
    ensures forall p :: p in plan ==> plan[p] == Staff(Uses(tax, designs, p), |designs|)
    ensures forall p :: p in plan <==> exists d :: d in designs && NamedBy(tax, d, p)
    ensures forall p :: p in plan ==>
              var n, total := |Users(tax, designs, p)|, |designs|;
              (plan[p] == 2 <==> 10 * n <= 3 * total) && (plan[p] == 3 <==> 3 * total < 10 * n <= 6 * total) &&
              (plan[p] == 4 <==> 6 * total < 10 * n)
  {
    PlanMeans(tax, designs);
    var all := Collect(tax, designs);
    var counts := CountUses(tax, designs);
    plan := map[];
    var left := all;
    while left != {}
      invariant left <= all && plan.Keys == all - left
      invariant forall p :: p in plan ==> plan[p] == Staff(Uses(tax, designs, p), |designs|)
      decreases left
    {
      var p :| p in left;
      var count := if p in counts then counts[p] else 0;
      var number := 4;
      if count == 0 {
        number := 2;
      } else if 10 * count <= 3 * |designs| {
        number := 2;
      } else if 10 * count <= 6 * |designs| {
        number := 3;
      }
      plan := plan[p := number];
      left := left - {p};
    }
  }

  /** What is planned for, and how many, in terms of the designs. */
  lemma PlanMeans(tax: Taxonomy, designs: seq<Design>)
    ensures forall p :: p in MentionedIn(tax, designs) <==> exists d :: d in designs && NamedBy(tax, d, p)
    ensures forall p ::
              var n, total := |Users(tax, designs, p)|, |designs|;
              var staff := Staff(Uses(tax, designs, p), total);
              (staff == 2 <==> 10 * n <= 3 * total) && (staff == 3 <==> 3 * total < 10 * n <= 6 * total) &&
              (staff == 4 <==> 6 * total < 10 * n)
  {
    forall p
      ensures p in MentionedIn(tax, designs) <==> exists d :: d in designs && NamedBy(tax, d, p)
      ensures Uses(tax, designs, p) == |Users(tax, designs, p)|
    {
      UsesAre(tax, designs, p);
      UsesCount(tax, designs, p);
      forall d | d in designs ensures p in Mentioned(tax, d) <==> NamedBy(tax, d, p) {
        CountedAre(tax, d, p);
      }
    }
  }

  method Collect(tax: Taxonomy, designs: seq<Design>) returns (all: set<string>)
    ensures all == MentionedIn(tax, designs)
  {
    all := {};
    assert designs[0..] == designs;
    for i := 0 to |designs|
      invariant all + MentionedIn(tax, designs[i..]) == MentionedIn(tax, designs)
    {
      assert designs[i..][0] == designs[i] && designs[i..][1..] == designs[i + 1..];
      all := AddKeys(tax, designs[i].processes, all);
      all := AddAllKeys(tax, designs[i].parts, all);
      all := AddAllKeys(tax, designs[i].subParts, all);
    }
  }

  method CountUses(tax: Taxonomy, designs: seq<Design>) returns (counts: map<string, nat>)
    ensures forall p :: Uses(tax, designs, p) == if p in counts then counts[p] else 0
  {
    counts := map[];
    for i := 0 to |designs|
      invariant forall p :: Uses(tax, designs[..i], p) == if p in counts then counts[p] else 0
    {
      var keys := AddKeys(tax, designs[i].processes, {});
      keys := AddAllKeys(tax, designs[i].parts, keys);
      ghost var before := counts;
      counts := CountOnce(counts, keys);
      forall p ensures Uses(tax, designs[..i + 1], p) == if p in counts then counts[p] else 0 {
        assert designs[..i + 1] == designs[..i] + [designs[i]];
        UsesConcat(tax, designs[..i], [designs[i]], p);
        assert Uses(tax, [designs[i]], p) == if p in keys then 1 else 0;
      }
    }
    assert designs[..|designs|] == designs;
  }

  method CountOnce(counts: map<string, nat>, keys: set<string>) returns (more: map<string, nat>)
    ensures more.Keys == counts.Keys + keys
    ensures forall p :: p in more ==> more[p] == (if p in counts then counts[p] else 0) + if p in keys then 1 else 0
  {
    more := counts;
    var left := keys;
    while left != {}
      invariant left <= keys && more.Keys == counts.Keys + (keys - left)
      invariant forall p :: p in more ==>
                  more[p] == (if p in counts then counts[p] else 0) + if p in keys - left then 1 else 0
      decreases left
    {
      var p :| p in left;
      more := more[p := (if p in more then more[p] else 0) + 1];
      left := left - {p};
    }
  }

  /* ---------- What the plan means ---------- */

  lemma {:induction false} UsesConcat(tax: Taxonomy, a: seq<Design>, b: seq<Design>, p: string)
    ensures Uses(tax, a + b, p) == Uses(tax, a, p) + Uses(tax, b, p)
  {
    if a == [] {
      assert a + b == b;
    } else {
      assert (a + b)[0] == a[0] && (a + b)[1..] == a[1..] + b;
      UsesConcat(tax, a[1..], b, p);
    }
  }

  lemma TakeOut(a: seq<Design>, b: seq<Design>) returns (front: seq<Design>, back: seq<Design>)
    requires a != [] && multiset(a) == multiset(b)
    ensures b == front + ([a[0]] + back) && multiset(a[1..]) == multiset(front + back)
  {
    assert a[0] in multiset(b);
    var j :| 0 <= j < |b| && b[j] == a[0];
    front, back := b[..j], b[j + 1..];
    assert b == front + ([a[0]] + back);
    WithoutOne(front, a[0], back);
    WithoutFirst(a);
  }

  lemma WithoutFirst(a: seq<Design>)
    requires a != []
    ensures multiset(a[1..]) == multiset(a) - multiset{a[0]}
  {
    assert a == [a[0]] + a[1..];
  }

  lemma WithoutOne(front: seq<Design>, d: Design, back: seq<Design>)
    ensures multiset(front + back) == multiset(front + ([d] + back)) - multiset{d}
  {
    assert multiset(front + ([d] + back)) == multiset(front) + (multiset{d} + multiset(back));
  }

  /** The order of the designs does not matter. */
  lemma {:induction false} OrderIrrelevant(tax: Taxonomy, a: seq<Design>, b: seq<Design>, p: string)
    requires multiset(a) == multiset(b)
    ensures Uses(tax, a, p) == Uses(tax, b, p) && |a| == |b|
    ensures p in MentionedIn(tax, a) <==> p in MentionedIn(tax, b)
    decreases |a|
  {
    assert |multiset(a)| == |a| && |multiset(b)| == |b|;
    if a != [] {
      var front, back := TakeOut(a, b);
      OrderIrrelevant(tax, a[1..], front + back, p);
      PutIn(tax, front, a[0], back, p);
    }
  }

  lemma PutIn(tax: Taxonomy, front: seq<Design>, d: Design, back: seq<Design>, p: string)
    ensures Uses(tax, front + ([d] + back), p) == (if p in Counted(tax, d) then 1 else 0) + Uses(tax, front + back, p)
    ensures MentionedIn(tax, front + ([d] + back)) == Mentioned(tax, d) + MentionedIn(tax, front + back)
  {
    UsesConcat(tax, front, back, p);
    UsesConcat(tax, front, [d] + back, p);
    MentionedConcat(tax, front, back);
    MentionedConcat(tax, front, [d] + back);
    assert ([d] + back)[1..] == back;
  }

  lemma {:induction false} MentionedConcat(tax: Taxonomy, a: seq<Design>, b: seq<Design>)
    ensures MentionedIn(tax, a + b) == MentionedIn(tax, a) + MentionedIn(tax, b)
  {
    if a == [] {
      assert a + b == b;
    } else {
      assert (a + b)[0] == a[0] && (a + b)[1..] == a[1..] + b;
      MentionedConcat(tax, a[1..], b);
    }
  }

  /** Two to four facilities, and never fewer for a process used more often. */
  lemma StaffGrows(few: nat, many: nat, total: nat)
    requires few <= many
    ensures 2 <= Staff(few, total) <= Staff(many, total) <= 4
  {}

  lemma {:induction false} UsesAre(tax: Taxonomy, ds: seq<Design>, p: string)
    ensures Uses(tax, ds, p) > 0 <==> exists d :: d in ds && p in Counted(tax, d)
    ensures p in MentionedIn(tax, ds) <==> exists d :: d in ds && p in Mentioned(tax, d)
  {
    if ds != [] {
      UsesAre(tax, ds[1..], p);
      assert ds == [ds[0]] + ds[1..];
    }
  }

  /** The case that the script expects not to happen - a process planned for but never counted -
      happens exactly for the processes found in sub-parts only, however many designs have them. */
  lemma SubPartsOnly(tax: Taxonomy, ds: seq<Design>, p: string)
    ensures p in MentionedIn(tax, ds) && Uses(tax, ds, p) == 0 <==>
            (exists d, l :: d in ds && l in d.subParts && Among(tax, l, p)) &&
            forall d :: d in ds ==> !UsedBy(tax, d, p)
    ensures (forall d :: d in ds ==> !UsedBy(tax, d, p)) ==> Staff(Uses(tax, ds, p), |ds|) == 2
  {
    UsesAre(tax, ds, p);
    forall d | d in ds ensures p in Counted(tax, d) <==> UsedBy(tax, d, p) {
      CountedAre(tax, d, p);
    }
    forall d | d in ds ensures p in Mentioned(tax, d) <==> NamedBy(tax, d, p) {
      CountedAre(tax, d, p);
    }
  }
}
