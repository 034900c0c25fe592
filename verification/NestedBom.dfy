/** Synthetic bills of materials: growing a component tree, and embedding it into a manifest as
    parts and nested sub-parts. */
module NestedBom {
  import opened Text

  /** What a component carries besides its identity and its children. `depth` is the recorded one. */
  datatype Details = Details(quantity: real, measure: string, reference: Option<map<string, string>>,
                             requirements: map<string, string>, depth: Option<int>)

  datatype Component = Component(id: string, name: string, details: Details, subs: seq<Component>)

  /* ---------- Growing a tree ---------- */

  function NamesAt(depth: int): seq<string> {
    if depth == 0 then ["Main Assembly", "Primary Module", "Core Component", "Base Unit"]
    else if depth == 1 then ["Sub-Assembly", "Secondary Module", "Support Component", "Auxiliary Unit"]
    else ["Sub-Component", "Tertiary Module", "Detail Part", "Element"]
  }

  function FullName(parent: string, own: string): string {
    if parent != "" then parent + " - " + own else own
  }

  /** A tree as the generator grows it: the depth recorded is the depth reached, every name
      extends its parent's, every component above the last level has one to three children and
      the components of the last level have none. */
  ghost predicate Grown(c: Component, depth: int, maxDepth: int, parent: string)
    decreases c
  {
    c.details.depth == Some(depth) &&
    (exists own :: own in NamesAt(depth) && c.name == FullName(parent, own)) &&
    (if depth < maxDepth then 1 <= |c.subs| <= 3 else c.subs == []) &&
    forall s :: s in c.subs ==> Grown(s, depth + 1, maxDepth, c.name)
  }

  /** `random.choice` */
  method Choice(options: seq<string>) returns (x: string)
    requires options != []
    ensures x in options
  {
    var i: int := *;
    x := options[if 0 <= i < |options| then i else 0];
  }

  method Requirements(material: string, process: string) returns (r: map<string, string>)
    ensures "process" in r && "material" in r && r["process"] == process && r["material"] == material
    ensures "tolerance" in r <==> process in ["CNC", "SHEET"]
  {
    r := map["material" := material, "process" := process];
    if process in ["CNC", "SHEET"] {
      var tolerance: string := *;
      r := r["tolerance" := tolerance];
    }
  }

  /** `generate_nested_component`. Every random choice is left open. */
  method Generate(materials: seq<string>, processes: seq<string>, depth: int, maxDepth: int, parent: string)
    returns (c: Component)
    ensures Grown(c, depth, maxDepth, parent)
    ensures c.details.reference == None && 1.0 <= c.details.quantity <= 10.0
    ensures c.details.measure in ["pcs", "units", "items"]
    ensures "process" in c.details.requirements && "material" in c.details.requirements
    ensures c.details.requirements["process"] in (if processes != [] then processes else ["3DP"])
    ensures c.details.requirements["material"] in (if materials != [] then materials else ["PLA"])
    ensures "tolerance" in c.details.requirements <==> c.details.requirements["process"] in ["CNC", "SHEET"]
    decreases if depth < maxDepth then maxDepth - depth else 0, 1
  {
    var own := Choice(NamesAt(depth));
    var name := FullName(parent, own);
    var material := Choice(if materials != [] then materials else ["PLA"]);
    var process := Choice(if processes != [] then processes else ["3DP"]);
    var id: string := *;
    var quantity: real := *;
    if quantity < 1.0 || 10.0 < quantity {
      quantity := 1.0;
    }
    var measure := Choice(["pcs", "units", "items"]);
    var requirements := Requirements(material, process);
    var subs: seq<Component> := [];
    if depth < maxDepth {
      subs := GenerateSubs(materials, processes, depth, maxDepth, name);
    }
    c := Component(id, name, Details(quantity, measure, None, requirements, Some(depth)), subs);
  }

  /** The loop over the children: one to three of them. */
  method GenerateSubs(materials: seq<string>, processes: seq<string>, depth: int, maxDepth: int, name: string)
    returns (subs: seq<Component>)
    requires depth < maxDepth
    ensures 1 <= |subs| <= 3 && forall s :: s in subs ==> Grown(s, depth + 1, maxDepth, name)
    decreases maxDepth - depth, 0
  {
    subs := [];
    var n: int := *;
    if n < 1 || 3 < n {
      n := 1;
    }
    for i := 0 to n
      invariant |subs| == i && forall s :: s in subs ==> Grown(s, depth + 1, maxDepth, name)
    {
      var sub := Generate(materials, processes, depth + 1, maxDepth, name);
      subs := subs + [sub];
    }
  }

  /* ---------- Shape of a grown tree ---------- */

  function Size(c: Component): nat { 1 + SizeAll(c.subs) }

  function SizeAll(cs: seq<Component>): nat {
    if cs == [] then 0 else Size(cs[0]) + SizeAll(cs[1..])
  }

  function Pow3(n: nat): (r: nat)
    ensures r >= 1
  {
    if n == 0 then 1 else 3 * Pow3(n - 1)
  }

  /** A tree grown to depth d below its root has at least d + 1 and at most
      (3^(d+1) - 1) / 2 components; with no depth left it is a single component. */
  lemma {:induction false} SizeBounds(c: Component, depth: int, maxDepth: int, parent: string)
    requires Grown(c, depth, maxDepth, parent)
    ensures depth >= maxDepth ==> Size(c) == 1
    ensures depth <= maxDepth ==>
              var d := maxDepth - depth;
              d + 1 <= Size(c) && 2 * Size(c) + 1 <= Pow3(d + 1)
    decreases c
  {
    if depth < maxDepth {
      var d := maxDepth - depth;
      forall s | s in c.subs ensures d <= Size(s) && 2 * Size(s) + 1 <= Pow3(d) {
        assert Grown(s, depth + 1, maxDepth, c.name);
        SizeBounds(s, depth + 1, maxDepth, c.name);
      }
      BoundsUp(c, d);
    }
  }

  /** The greatest tree from a depth on: three children everywhere above the last level. */
  function Full(depth: int, maxDepth: int, parent: string): Component
    decreases if depth < maxDepth then maxDepth - depth else 0
  {
    var name := FullName(parent, NamesAt(depth)[0]);
    var sub := if depth < maxDepth then Full(depth + 1, maxDepth, name) else Component("", "", NONE, []);
    Component("", name, NONE.(depth := Some(depth)), if depth < maxDepth then [sub, sub, sub] else [])
  }

  const NONE := Details(1.0, "pcs", None, map[], None)

  lemma {:induction false} FullIsGrown(depth: int, maxDepth: int, parent: string)
    requires depth <= maxDepth
    ensures Grown(Full(depth, maxDepth, parent), depth, maxDepth, parent)
    decreases maxDepth - depth
  {
    var c := Full(depth, maxDepth, parent);
    if depth < maxDepth {
      FullIsGrown(depth + 1, maxDepth, c.name);
    }
    SubsGrown(c, depth, maxDepth, parent, NamesAt(depth)[0]);
  }

  lemma SubsGrown(c: Component, depth: int, maxDepth: int, parent: string, own: string)
    requires c.details.depth == Some(depth) && own in NamesAt(depth) && c.name == FullName(parent, own)
    requires if depth < maxDepth then |c.subs| == 3 else c.subs == []
    requires forall s :: s in c.subs ==> Grown(s, depth + 1, maxDepth, c.name)
    ensures Grown(c, depth, maxDepth, parent)
  {}

  /** The upper bound is reached. */
  lemma {:induction false} BoundReached(depth: int, maxDepth: int, parent: string)
    requires depth <= maxDepth
    ensures Grown(Full(depth, maxDepth, parent), depth, maxDepth, parent)
    ensures 2 * Size(Full(depth, maxDepth, parent)) + 1 == Pow3(maxDepth - depth + 1)
    decreases maxDepth - depth
  {
    var c := Full(depth, maxDepth, parent);
    FullIsGrown(depth, maxDepth, parent);
    if depth < maxDepth {
      BoundReached(depth + 1, maxDepth, c.name);
      SizeUnrolled(c.subs);
    } else {
      assert Pow3(1) == 3 * Pow3(0);
    }
  }

  lemma BoundsUp(c: Component, d: nat)
    requires d > 0 && 1 <= |c.subs| <= 3 && forall s :: s in c.subs ==> d <= Size(s) && 2 * Size(s) + 1 <= Pow3(d)
    ensures d + 1 <= Size(c) && 2 * Size(c) + 1 <= Pow3(d + 1)
  {
    SumBounds(c.subs, d, Pow3(d));
    assert Pow3(d + 1) == 3 * Pow3(d);
  }

  lemma SumBounds(cs: seq<Component>, low: nat, p: nat)
    requires |cs| <= 3 && p >= 1 && forall s :: s in cs ==> low <= Size(s) && 2 * Size(s) + 1 <= p
    ensures cs != [] ==> low <= SizeAll(cs)
    ensures 2 * SizeAll(cs) + 3 <= 3 * p
  {
    SizeUnrolled(cs);
  }

  lemma {:induction false} SizeUnrolled(cs: seq<Component>)
    requires |cs| <= 3
    ensures |cs| == 0 ==> SizeAll(cs) == 0
    ensures |cs| == 1 ==> SizeAll(cs) == Size(cs[0])
    ensures |cs| == 2 ==> SizeAll(cs) == Size(cs[0]) + Size(cs[1])
    ensures |cs| == 3 ==> SizeAll(cs) == Size(cs[0]) + Size(cs[1]) + Size(cs[2])
  {
    if |cs| > 0 {
      SizeUnrolled(cs[1..]);
    }
  }

  /** `d` is `c` or below it. */
  ghost predicate Within(d: Component, c: Component)
    decreases c
  {
    d == c || exists s :: s in c.subs && Within(d, s)
  }

  /** The depths at which a tree has leaves. */
  function LeafDepths(c: Component, depth: int): set<int> {
    if c.subs == [] then {depth} else LeafDepthsAll(c.subs, depth + 1)
  }

  function LeafDepthsAll(cs: seq<Component>, depth: int): set<int> {
    if cs == [] then {} else LeafDepths(cs[0], depth) + LeafDepthsAll(cs[1..], depth)
  }

  /** Every leaf sits at exactly the maximal depth. */
  lemma {:induction false} LeavesAtMaxDepth(c: Component, depth: int, maxDepth: int, parent: string)
    requires Grown(c, depth, maxDepth, parent) && depth <= maxDepth
    ensures LeafDepths(c, depth) == {maxDepth}
    decreases c
  {
    if depth < maxDepth {
      forall s | s in c.subs ensures LeafDepths(s, depth + 1) == {maxDepth} {
        LeavesAtMaxDepth(s, depth + 1, maxDepth, c.name);
      }
      SameLeafDepths(c.subs, depth + 1, maxDepth);
    }
  }

  /** So a component without children has recorded the maximal depth, wherever it stands. */
  lemma {:induction false} LeafRecorded(d: Component, c: Component, depth: int, maxDepth: int, parent: string)
    requires Grown(c, depth, maxDepth, parent) && depth <= maxDepth && Within(d, c) && d.subs == []
    ensures d.details.depth == Some(maxDepth)
    decreases c
  {
    if d != c {
      var s :| s in c.subs && Within(d, s);
      LeafRecorded(d, s, depth + 1, maxDepth, c.name);
    }
  }

  lemma {:induction false} SameLeafDepths(cs: seq<Component>, depth: int, d: int)
    requires cs != [] && forall s :: s in cs ==> LeafDepths(s, depth) == {d}
    ensures LeafDepthsAll(cs, depth) == {d}
  {
    assert cs[0] in cs && forall s :: s in cs[1..] ==> s in cs;
    if |cs| > 1 {
      SameLeafDepths(cs[1..], depth, d);
    }
  }

  /** The name of a component begins with the names of all components above it. */
  lemma {:induction false} NamesExtend(d: Component, c: Component, depth: int, maxDepth: int, parent: string)
    requires Grown(c, depth, maxDepth, parent) && Within(d, c)
    ensures c.name <= d.name && (d != c ==> c.name < d.name)
    decreases c
  {
    if d != c {
      var s :| s in c.subs && Within(d, s);
      NamesExtend(d, s, depth + 1, maxDepth, c.name);
      ChildName(c, s, depth, maxDepth, parent);
      PrefixChain(c.name, s.name, d.name);
    }
  }

  lemma ChildName(c: Component, s: Component, depth: int, maxDepth: int, parent: string)
    requires Grown(c, depth, maxDepth, parent) && s in c.subs
    ensures c.name < s.name
  {
    NameNonempty(c, depth, maxDepth, parent);
    assert Grown(s, depth + 1, maxDepth, c.name);
    var own :| own in NamesAt(depth + 1) && s.name == FullName(c.name, own);
    assert s.name == c.name + " - " + own;
  }

  lemma NameNonempty(c: Component, depth: int, maxDepth: int, parent: string)
    requires Grown(c, depth, maxDepth, parent)
    ensures c.name != ""
  {}

  /** The names by level: behind that of the component above, one of four, which differ from the top level
      to the next and below. */
  lemma NamedByLevel(c: Component, depth: int, maxDepth: int, parent: string) returns (own: string)
    requires Grown(c, depth, maxDepth, parent)
    ensures c.name == if parent == "" then own else parent + " - " + own
    ensures depth == 0 ==> own in ["Main Assembly", "Primary Module", "Core Component", "Base Unit"]
    ensures depth == 1 ==> own in ["Sub-Assembly", "Secondary Module", "Support Component", "Auxiliary Unit"]
    ensures depth != 0 && depth != 1 ==> own in ["Sub-Component", "Tertiary Module", "Detail Part", "Element"]
  {
    own :| own in NamesAt(depth) && c.name == FullName(parent, own);
  }

  lemma PrefixChain(a: string, b: string, c: string)
    requires a < b <= c
    ensures a < c
  {
    assert c[..|a|] == c[..|b|][..|a|];
  }

  /* ---------- Embedding ---------- */

  datatype SubPart = SubPart(name: string, details: Details, subParts: seq<SubPart>)

  datatype Part = Part(name: string, tsdc: seq<string>, material: string)

  /** `convert_component_to_sub_part`; a missing `sub_parts` entry is an empty one. */
  function ToSubPart(c: Component): SubPart { SubPart(c.name, c.details, ToSubParts(c.subs)) }

  function ToSubParts(cs: seq<Component>): seq<SubPart> {
    if cs == [] then [] else [ToSubPart(cs[0])] + ToSubParts(cs[1..])
  }

  /** A component without a reference; an empty dictionary is none. */
  predicate Bare(c: Component) { c.details.reference == None || c.details.reference == Some(map[]) }

  function ToPart(c: Component): Part {
    var r := c.details.requirements;
    Part(c.name, [if "process" in r then r["process"] else "3DP"], if "material" in r then r["material"] else "PLA")
  }

  function PartsOf(cs: seq<Component>): seq<Part> {
    if cs == [] then [] else (if Bare(cs[0]) then [ToPart(cs[0])] else []) + PartsOf(cs[1..])
  }

  function SubPartsOf(cs: seq<Component>): seq<SubPart> {
    if cs == [] then []
    else (if Bare(cs[0]) then ToSubParts(cs[0].subs) else [ToSubPart(cs[0])]) + SubPartsOf(cs[1..])
  }

  /* ---------- What goes where ---------- */

  /** A sub-part that stands for a component, with all below it. */
  ghost predicate Mirrors(p: SubPart, c: Component)
    decreases c
  {
    p.name == c.name && p.details == c.details && |p.subParts| == |c.subs| &&
    forall j :: 0 <= j < |c.subs| ==> Mirrors(p.subParts[j], c.subs[j])
  }

  /** A part that stands for a component: its process and material, `3DP` and `PLA` if it has none. */
  predicate PartFor(p: Part, c: Component) {
    p.name == c.name &&
    p.tsdc == [if "process" in c.details.requirements then c.details.requirements["process"] else "3DP"] &&
    p.material == if "material" in c.details.requirements then c.details.requirements["material"] else "PLA"
  }

  /** Component by component: one with a nonempty reference stands among the sub-parts as it is and yields
      no part; any other yields a part, and its children stand among the sub-parts. */
  ghost predicate Divided(cs: seq<Component>, parts: seq<Part>, subParts: seq<SubPart>) {
    if cs == [] then parts == [] && subParts == []
    else if cs[0].details.reference == None || cs[0].details.reference == Some(map[]) then
      var n := |cs[0].subs|;
      parts != [] && PartFor(parts[0], cs[0]) && n <= |subParts| &&
      (forall j :: 0 <= j < n ==> Mirrors(subParts[j], cs[0].subs[j])) && Divided(cs[1..], parts[1..], subParts[n..])
    else subParts != [] && Mirrors(subParts[0], cs[0]) && Divided(cs[1..], parts, subParts[1..])
  }

  lemma {:induction false} ConvertedMirrors(cs: seq<Component>)
    ensures |ToSubParts(cs)| == |cs| && forall j :: 0 <= j < |cs| ==> Mirrors(ToSubParts(cs)[j], cs[j])
    decreases cs
  {
    if cs != [] {
      ConvertedMirrors(cs[0].subs);
      ConvertedMirrors(cs[1..]);
    }
  }

  /** The parts and sub-parts of a bill divide it so. */
  lemma {:induction false} EmbeddingDivides(cs: seq<Component>)
    ensures Divided(cs, PartsOf(cs), SubPartsOf(cs))
  {
    if cs != [] {
      var c, parts, subParts := cs[0], PartsOf(cs[1..]), SubPartsOf(cs[1..]);
      EmbeddingDivides(cs[1..]);
      ConvertedMirrors([c]);
      ConvertedMirrors(c.subs);
      assert ToSubParts([c])[0] == ToSubPart(c);
      if !Bare(c) {
        assert PartsOf(cs) == parts && ([ToSubPart(c)] + subParts)[1..] == subParts;
      } else {
        assert ([ToPart(c)] + parts)[1..] == parts;
        assert (ToSubParts(c.subs) + subParts)[|c.subs|..] == subParts;
      }
    }
  }

  ghost predicate AmongSubParts(c: Component, subParts: seq<SubPart>) { exists p :: p in subParts && Mirrors(p, c) }

  ghost predicate AmongParts(c: Component, parts: seq<Part>) { exists q :: q in parts && PartFor(q, c) }

  /** So every component is found again: one with a nonempty reference as a sub-part, any other as a part
      with its children as sub-parts. */
  lemma {:induction false} ComponentsFound(cs: seq<Component>, parts: seq<Part>, subParts: seq<SubPart>)
    requires Divided(cs, parts, subParts)
    ensures forall c :: c in cs && !Bare(c) ==> AmongSubParts(c, subParts)
    ensures forall c :: c in cs && Bare(c) ==>
              AmongParts(c, parts) && forall s :: s in c.subs ==> AmongSubParts(s, subParts)
  {
    if cs != [] {
      var c, n := cs[0], if Bare(cs[0]) then |cs[0].subs| else 1;
      var rest := if Bare(c) then parts[1..] else parts;
      ComponentsFound(cs[1..], rest, subParts[n..]);
      assert forall p :: p in subParts[n..] ==> p in subParts;
      assert forall q :: q in rest ==> q in parts;
      forall d | d in cs[1..] ensures (AmongSubParts(d, subParts[n..]) ==> AmongSubParts(d, subParts)) {}
      assert cs == [c] + cs[1..];
      FirstFound(c, parts, subParts);
    }
  }

  lemma FirstFound(c: Component, parts: seq<Part>, subParts: seq<SubPart>)
    requires if Bare(c) then
               parts != [] && PartFor(parts[0], c) && |c.subs| <= |subParts| &&
               forall j :: 0 <= j < |c.subs| ==> Mirrors(subParts[j], c.subs[j])
             else subParts != [] && Mirrors(subParts[0], c)
    ensures !Bare(c) ==> AmongSubParts(c, subParts)
    ensures Bare(c) ==> AmongParts(c, parts) && forall s :: s in c.subs ==> AmongSubParts(s, subParts)
  {
    if Bare(c) {
      assert parts[0] in parts;
      forall s | s in c.subs ensures AmongSubParts(s, subParts) {
        var j :| 0 <= j < |c.subs| && c.subs[j] == s;
        assert subParts[j] in subParts;
      }
    } else {
      assert subParts[0] in subParts;
    }
  }

  /** And every part comes from a component without a reference, one from each, in order. */
  lemma {:induction false} PartsCome(cs: seq<Component>, parts: seq<Part>, subParts: seq<SubPart>)
    requires Divided(cs, parts, subParts)
    ensures forall q :: q in parts ==> FromBare(q, cs)
    ensures PartsNamed(parts) == BareNames(cs)
  {
    if cs != [] {
      assert cs == [cs[0]] + cs[1..];
      if Bare(cs[0]) {
        PartsCome(cs[1..], parts[1..], subParts[|cs[0].subs|..]);
        OnePartMore(cs, parts);
      } else {
        PartsCome(cs[1..], parts, subParts[1..]);
        StillFromBare(cs, parts);
      }
    }
  }

  ghost predicate FromBare(q: Part, cs: seq<Component>) { exists c :: c in cs && Bare(c) && PartFor(q, c) }

  lemma StillFromBare(cs: seq<Component>, parts: seq<Part>)
    requires cs != [] && forall q :: q in parts ==> FromBare(q, cs[1..])
    ensures forall q :: q in parts ==> FromBare(q, cs)
  {
    forall q | q in parts ensures FromBare(q, cs) {
      var c :| c in cs[1..] && Bare(c) && PartFor(q, c);
      assert c in cs;
    }
  }

  lemma {:induction false} OnePartMore(cs: seq<Component>, parts: seq<Part>)
    requires cs != [] && parts != [] && Bare(cs[0]) && PartFor(parts[0], cs[0])
    requires (forall q :: q in parts[1..] ==> FromBare(q, cs[1..])) && PartsNamed(parts[1..]) == BareNames(cs[1..])
    ensures (forall q :: q in parts ==> FromBare(q, cs)) && PartsNamed(parts) == BareNames(cs)
  {
    var q, rest := parts[0], parts[1..];
    StillFromBare(cs, rest);
    assert cs[0] in cs && parts == [q] + rest;
    FirstNamed(q, rest);
  }

  lemma FirstNamed(q: Part, rest: seq<Part>)
    ensures PartsNamed([q] + rest) == [q.name] + PartsNamed(rest)
  {}

  function PartsNamed(parts: seq<Part>): (r: seq<string>)
    ensures |r| == |parts| && forall i :: 0 <= i < |r| ==> r[i] == parts[i].name
  {
    seq(|parts|, i requires 0 <= i < |parts| => parts[i].name)
  }

  /** The names of the components without a reference, in order. */
  function BareNames(cs: seq<Component>): seq<string> {
    if cs == [] then [] else (if Bare(cs[0]) then [cs[0].name] else []) + BareNames(cs[1..])
  }

  lemma Rebracket<T>(a: seq<T>, b: seq<T>, c: seq<T>)
    ensures a + (b + c) == a + b + c
  {}

  class Manifest {
    var parts: seq<Part>
    var subParts: seq<SubPart>

    constructor () { parts, subParts := [], []; }

    /** The embedding loop of `generate_okh_manifest_with_nesting`. */
    method Embed(components: seq<Component>)
      modifies this
      ensures parts == PartsOf(components) && subParts == SubPartsOf(components)
      ensures Divided(components, parts, subParts)
    {
      EmbeddingDivides(components);
      parts, subParts := [], [];
      assert components[0..] == components;
      for i := 0 to |components|
        invariant parts + PartsOf(components[i..]) == PartsOf(components)
        invariant subParts + SubPartsOf(components[i..]) == SubPartsOf(components)
      {
        ghost var c, rest := components[i], components[i + 1..];
        assert components[i..][0] == c && components[i..][1..] == rest;
        Rebracket(parts, if Bare(c) then [ToPart(c)] else [], PartsOf(rest));
        Rebracket(subParts, if Bare(c) then ToSubParts(c.subs) else [ToSubPart(c)], SubPartsOf(rest));
        Add(components[i]);
      }
    }

    /** One top-level component: with a reference it becomes a sub-part as it is, otherwise a part
        with its children as sub-parts. */
    method Add(c: Component)
      modifies this
      ensures parts == old(parts) + (if Bare(c) then [ToPart(c)] else [])
      ensures subParts == old(subParts) + (if Bare(c) then ToSubParts(c.subs) else [ToSubPart(c)])
      ensures |parts| - |old(parts)| ==
              if c.details.reference == None || c.details.reference == Some(map[]) then 1 else 0
    {
      if !Bare(c) {
        subParts := subParts + [ToSubPart(c)];
      } else {
        parts := parts + [ToPart(c)];
        assert c.subs[0..] == c.subs;
        for j := 0 to |c.subs|
          invariant subParts + ToSubParts(c.subs[j..]) == old(subParts) + ToSubParts(c.subs)
          invariant parts == old(parts) + [ToPart(c)]
        {
          assert c.subs[j..][1..] == c.subs[j + 1..];
          subParts := subParts + [ToSubPart(c.subs[j])];
        }
      }
    }
  }

  /* ---------- Conservation ---------- */

  /** All names in a forest of components, and in a forest of sub-parts. */
  function Names(cs: seq<Component>): multiset<string>
    decreases cs, 0
  {
    if cs == [] then multiset{} else multiset{cs[0].name} + Names(cs[0].subs) + Names(cs[1..])
  }

  function SubPartNames(ps: seq<SubPart>): multiset<string> {
    if ps == [] then multiset{} else multiset{ps[0].name} + SubPartNames(ps[0].subParts) + SubPartNames(ps[1..])
  }

  function PartNames(ps: seq<Part>): multiset<string> {
    if ps == [] then multiset{} else multiset{ps[0].name} + PartNames(ps[1..])
  }

  lemma {:induction false} SubPartNamesConcat(a: seq<SubPart>, b: seq<SubPart>)
    ensures SubPartNames(a + b) == SubPartNames(a) + SubPartNames(b)
  {
    if a == [] {
      assert a + b == b;
    } else {
      assert (a + b)[1..] == a[1..] + b;
      SubPartNamesConcat(a[1..], b);
    }
  }

  lemma {:induction false} ConvertedNames(cs: seq<Component>)
    ensures SubPartNames(ToSubParts(cs)) == Names(cs)
    decreases cs, 0
  {
    if cs != [] {
      ConvertedNames(cs[0].subs);
      ConvertedNames(cs[1..]);
    }
  }

  /** Embedding conserves every node: the names in parts and in the sub-part forest together are
      the names of all components of the bill. */
  lemma {:induction false} EmbeddingConserves(cs: seq<Component>)
    ensures PartNames(PartsOf(cs)) + SubPartNames(SubPartsOf(cs)) == Names(cs)
  {
    if cs != [] {
      var parts, subParts := PartsOf(cs[1..]), SubPartsOf(cs[1..]);
      assert PartNames(parts) + SubPartNames(subParts) == Names(cs[1..]) by { EmbeddingConserves(cs[1..]); }
      FirstConserved(cs[0], parts, subParts);
      assert [] + parts == parts;
    }
  }

  /** One component, put in front of what the others became. */
  lemma {:induction false} FirstConserved(c: Component, parts: seq<Part>, subParts: seq<SubPart>)
    ensures !Bare(c) ==>
            SubPartNames([ToSubPart(c)] + subParts) == multiset{c.name} + Names(c.subs) + SubPartNames(subParts)
    ensures SubPartNames(ToSubParts(c.subs) + subParts) == Names(c.subs) + SubPartNames(subParts)
    ensures PartNames([ToPart(c)] + parts) == multiset{c.name} + PartNames(parts)
  {
    ConvertedNames(c.subs);
    SubPartNamesConcat(ToSubParts(c.subs), subParts);
    assert ([ToSubPart(c)] + subParts)[1..] == subParts;
    assert ([ToPart(c)] + parts)[1..] == parts;
  }

  /** There are as many names as components, so the node count is conserved as well. */
  lemma {:induction false} NamesCount(cs: seq<Component>)
    ensures |Names(cs)| == SizeAll(cs)
    decreases cs, 0
  {
    if cs != [] {
      NamesCount(cs[0].subs);
      NamesCount(cs[1..]);
    }
  }

  /** The sub-parts of a forest, at every level. */
  function ForestSize(ps: seq<SubPart>): nat {
    if ps == [] then 0 else 1 + ForestSize(ps[0].subParts) + ForestSize(ps[1..])
  }

  lemma {:induction false} ForestConcat(a: seq<SubPart>, b: seq<SubPart>)
    ensures ForestSize(a + b) == ForestSize(a) + ForestSize(b)
  {
    if a == [] {
      assert a + b == b;
    } else {
      assert (a + b)[1..] == a[1..] + b;
      ForestConcat(a[1..], b);
    }
  }

  lemma {:induction false} ConvertedSize(cs: seq<Component>)
    ensures ForestSize(ToSubParts(cs)) == SizeAll(cs)
    decreases cs, 0
  {
    if cs != [] {
      ConvertedSize(cs[0].subs);
      ConvertedSize(cs[1..]);
    }
  }

  /** The parts and all sub-parts together are as many as the components. */
  lemma {:induction false} NodesConserved(cs: seq<Component>)
    ensures |PartsOf(cs)| + ForestSize(SubPartsOf(cs)) == SizeAll(cs)
  {
    if cs != [] {
      var first := if Bare(cs[0]) then ToSubParts(cs[0].subs) else [ToSubPart(cs[0])];
      NodesConserved(cs[1..]);
      ConvertedSize(cs[0].subs);
      ForestConcat(first, SubPartsOf(cs[1..]));
      assert [ToSubPart(cs[0])][1..] == [];
    }
  }

  /* ---------- Conversion can be undone ---------- */

  function FromSubPart(p: SubPart, id: string): Component {
    Component(id, p.name, p.details, FromSubParts(p.subParts, id))
  }

  function FromSubParts(ps: seq<SubPart>, id: string): seq<Component> {
    if ps == [] then [] else [FromSubPart(ps[0], id)] + FromSubParts(ps[1..], id)
  }

  /** The same tree with one id everywhere. */
  function WithId(c: Component, id: string): Component { Component(id, c.name, c.details, WithIds(c.subs, id)) }

  function WithIds(cs: seq<Component>, id: string): seq<Component> {
    if cs == [] then [] else [WithId(cs[0], id)] + WithIds(cs[1..], id)
  }

  /** Conversion loses the ids and nothing else, at any depth; every sub-part is a conversion. */
  lemma {:induction false} ConversionLosesIdsOnly(cs: seq<Component>, id: string)
    ensures FromSubParts(ToSubParts(cs), id) == WithIds(cs, id)
    decreases cs
  {
    if cs != [] {
      ConversionLosesIdsOnly(cs[0].subs, id);
      ConversionLosesIdsOnly(cs[1..], id);
      assert ToSubParts(cs)[1..] == ToSubParts(cs[1..]);
    }
  }

  lemma {:induction false} EverySubPartIsConverted(ps: seq<SubPart>, id: string)
    ensures ToSubParts(FromSubParts(ps, id)) == ps
    decreases ps
  {
    if ps != [] {
      EverySubPartIsConverted(ps[0].subParts, id);
      EverySubPartIsConverted(ps[1..], id);
      assert FromSubParts(ps, id)[1..] == FromSubParts(ps[1..], id);
    }
  }
}
