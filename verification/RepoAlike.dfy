/** When two trees with the same files are printed alike, whatever the order of their keys. */
module RepoAlike {
  import opened Text
  import opened Order
  import opened RepoTree
  import opened RepoListing
  import opened RepoMap

  /* ---------- Two trees with the same files ---------- */

  /** The same files in two trees, directory by directory. */
  ghost predicate SameTree(h: Heap, g: Heap) {
    Valid(h) && Valid(g) &&
    forall q :: FileAt(h, q) == FileAt(g, q) && Where(h, q).Some? == Where(g, q).Some?
  }

  lemma SameKeys(h: Heap, g: Heap, p: Path, d: nat, e: nat)
    requires SameTree(h, g) && Where(h, p) == Some(d) && Where(g, p) == Some(e)
    ensures h[d].Keys == g[e].Keys
  {
    forall n ensures n in h[d] <==> n in g[e] {
      ChildAt(h, p, d, n);
      ChildAt(g, p, e, n);
      assert FileAt(h, p + [n]) == FileAt(g, p + [n]) && Where(h, p + [n]).Some? == Where(g, p + [n]).Some?;
    }
  }

  /** The same name stands for the same file in both, or for a directory in both. */
  lemma SameKind(h: Heap, g: Heap, p: Path, d: nat, e: nat, name: string)
    requires SameTree(h, g) && Where(h, p) == Some(d) && Where(g, p) == Some(e) && name in h[d]
    ensures name in g[e] && (h[d][name].File? <==> g[e][name].File?)
    ensures h[d][name].File? ==> h[d][name] == g[e][name]
    ensures h[d][name].Dir? ==>
              Where(h, p + [name]) == Some(h[d][name].id) && Where(g, p + [name]) == Some(g[e][name].id)
  {
    var q := p + [name];
    ChildAt(h, p, d, name);
    ChildAt(g, p, e, name);
    SameKeys(h, g, p, d, e);
    assert FileAt(h, q) == FileAt(g, q) && Where(h, q).Some? == Where(g, q).Some?;
    assert Front(q) == p && Last(q) == name;
  }

  lemma {:induction false} ListsLength(l: seq<string>, s: set<string>)
    requires Lists(l, s)
    ensures |l| == |s|
    decreases |l|
  {
    if l != [] {
      assert l[0] in l && l == [l[0]] + l[1..];
      ListsLength(l[1..], s - {l[0]});
    }
  }

  /** A directory in both has as many keys in both, and the same ones. */
  lemma SameCount(h: Heap, o: Orders, g: Heap, u: Orders, p: Path, d: nat, e: nat)
    requires SameTree(h, g) && Ordered(h, o) && Ordered(g, u) && Where(h, p) == Some(d) && Where(g, p) == Some(e)
    ensures |o[d]| == |u[e]| && forall n :: n in o[d] <==> n in u[e]
  {
    SameKeys(h, g, p, d, e);
    ListsLength(o[d], h[d].Keys);
    ListsLength(u[e], g[e].Keys);
  }

  /** What stands under a name, in both trees. */
  lemma SameUnder(h: Heap, o: Orders, g: Heap, u: Orders, p: Path, d: nat, e: nat, name: string)
    requires SameTree(h, g) && Ordered(h, o) && Ordered(g, u) && Where(h, p) == Some(d) && Where(g, p) == Some(e)
    ensures |KeysUnder(h, o, d, name)| == |KeysUnder(g, u, e, name)|
    ensures KeysUnder(h, o, d, name) == KeysUnder(g, u, e, name) <==>
            OrderAt(h, o, p + [name]) == OrderAt(g, u, p + [name])
  {
    SameKeys(h, g, p, d, e);
    ChildAt(h, p, d, name);
    ChildAt(g, p, e, name);
    if name in h[d] {
      SameKind(h, g, p, d, e, name);
      if h[d][name].Dir? {
        SameCount(h, o, g, u, p + [name], h[d][name].id, g[e][name].id);
      }
    }
  }

  /** A directory taken for a file is printed with as many symbols in both. */
  lemma SamePosing(h: Heap, o: Orders, g: Heap, u: Orders, p: Path, d: nat, e: nat)
    requires SameTree(h, g) && Ordered(h, o) && Ordered(g, u) && Where(h, p) == Some(d) && Where(g, p) == Some(e)
    ensures Alike(Posing(h, o, d), Posing(g, u, e))
  {
    SameUnder(h, o, g, u, p, d, e, "classes");
    SameUnder(h, o, g, u, p, d, e, "functions");
    SameUnder(h, o, g, u, p, d, e, "error");
    TextNonempty(h, o, d, "error");
    TextNonempty(g, u, e, "error");
  }

  /** Symbols that are printed on as many lines. */
  predicate Alike(s: Symbols, t: Symbols) {
    |s.classes| == |t.classes| && |s.functions| == |t.functions| && (s.error.Some? <==> t.error.Some?) &&
    s.error != Some("") && t.error != Some("")
  }

  lemma TextNonempty(h: Heap, o: Orders, d: nat, name: string)
    requires Valid(h) && Ordered(h, o) && d < |h|
    ensures name in h[d] ==> EntryText(h, o, d, name) != ""
  {
    if name in h[d] && h[d][name].Dir? {
      assert Refers(h, d, name, h[d][name].id);
    }
  }

  /* ---------- Their lines ---------- */

  lemma EachTells(before: string, xs: seq<string>, ys: seq<string>, after: string)
    requires |xs| == |ys|
    ensures Each(before, xs, after) == Each(before, ys, after) <==> xs == ys
  {
    if Each(before, xs, after) == Each(before, ys, after) {
      forall i | 0 <= i < |xs| ensures xs[i] == ys[i] {
        assert Each(before, xs, after)[i] == before + (xs[i] + after) == before + (ys[i] + after);
        Middle(before, xs[i], ys[i], after);
      }
    }
  }

  lemma Middle(before: string, x: string, y: string, after: string)
    requires before + (x + after) == before + (y + after)
    ensures x == y
  {
    var s := before + (x + after);
    assert |x| == |y| && x == s[|before|..|before| + |x|] && y == s[|before|..|before| + |y|];
  }

  lemma BothParts<T>(a: seq<T>, b: seq<T>, c: seq<T>, d: seq<T>)
    requires |a| == |c|
    ensures a + b == c + d <==> a == c && b == d
  {
    if a + b == c + d {
      assert a == (a + b)[..|a|] && b == (a + b)[|a|..];
      assert c == (c + d)[..|a|] && d == (c + d)[|a|..];
    }
  }

  lemma SymbolsTell(name: string, s: Symbols, t: Symbols, last: bool, prefix: string)
    requires Alike(s, t)
    ensures |FileLines(name, s, last, prefix)| == |FileLines(name, t, last, prefix)|
    ensures FileLines(name, s, last, prefix) == FileLines(name, t, last, prefix) <==> s == t
  {
    var lead := prefix + Pad(last);
    var a, b := Each(lead + "    class ", s.classes, ""), Each(lead + "    class ", t.classes, "");
    var c, d := Each(lead + "    def ", s.functions, "()"), Each(lead + "    def ", t.functions, "()");
    EachTells(lead + "    class ", s.classes, t.classes, "");
    EachTells(lead + "    def ", s.functions, t.functions, "()");
    ErrorTells(lead, s, t);
    BothParts(a + c, ErrorLines(lead, s), b + d, ErrorLines(lead, t));
    BothParts(a, c, b, d);
    var first := [prefix + (Connector(last) + name)];
    BothParts(first, SymbolLines(lead, s), first, SymbolLines(lead, t));
  }

  function ErrorLines(lead: string, s: Symbols): seq<string> {
    if s.error.Some? && s.error.value != "" then [lead + ("    # Error: " + s.error.value)] else []
  }

  lemma ErrorTells(lead: string, s: Symbols, t: Symbols)
    requires Alike(s, t)
    ensures |ErrorLines(lead, s)| == |ErrorLines(lead, t)|
    ensures ErrorLines(lead, s) == ErrorLines(lead, t) <==> s.error == t.error
  {
    if s.error.Some? && ErrorLines(lead, s) == ErrorLines(lead, t) {
      assert ErrorLines(lead, s)[0] == ErrorLines(lead, t)[0];
      var x, y := s.error.value, t.error.value;
      BothParts(lead, "    # Error: " + x, lead, "    # Error: " + y);
      BothParts("    # Error: ", x, "    # Error: ", y);
    }
  }

  /** In both trees a directory that is listed as a file is printed with the same symbols. */
  ghost predicate SamePose(h: Heap, o: Orders, g: Heap, u: Orders, x: Path)
    requires Valid(h) && Valid(g) && Ordered(h, o) && Ordered(g, u)
  {
    Where(h, x).Some? && Where(g, x).Some? ==> Posing(h, o, Where(h, x).value) == Posing(g, u, Where(g, x).value)
  }

  /** So it is with all that are listed below the directory at `p`, under these names. */
  ghost predicate Agree(h: Heap, o: Orders, g: Heap, u: Orders, p: Path, d: nat, names: seq<string>)
    requires Valid(h) && Valid(g) && Ordered(h, o) && Ordered(g, u) && d < |h|
  {
    forall y :: Shown(h, d, y) && y[0] in names && Mistaken(h, p + y) ==> SamePose(h, o, g, u, p + y)
  }

  lemma {:induction false} SameLines(h: Heap, o: Orders, g: Heap, u: Orders, p: Path, d: nat, e: nat, prefix: string)
    requires SameTree(h, g) && Ordered(h, o) && Ordered(g, u) && Where(h, p) == Some(d) && Where(g, p) == Some(e)
    ensures |Lines(h, o, d, prefix)| == |Lines(g, u, e, prefix)|
    ensures Lines(h, o, d, prefix) == Lines(g, u, e, prefix) <==> Agree(h, o, g, u, p, d, SortedOf(h[d].Keys))
    decreases |h| - d, 2, 0
  {
    SameKeys(h, g, p, d, e);
    SameItems(h, o, g, u, p, d, e, SortedOf(h[d].Keys), prefix);
  }

  lemma {:induction false} SameItems(h: Heap, o: Orders, g: Heap, u: Orders, p: Path, d: nat, e: nat,
                                     names: seq<string>, prefix: string)
    requires SameTree(h, g) && Ordered(h, o) && Ordered(g, u) && Where(h, p) == Some(d) && Where(g, p) == Some(e)
    requires forall n :: n in names ==> n in h[d] && n in g[e]
    ensures |ItemLines(h, o, d, names, prefix)| == |ItemLines(g, u, e, names, prefix)|
    ensures ItemLines(h, o, d, names, prefix) == ItemLines(g, u, e, names, prefix) <==>
            Agree(h, o, g, u, p, d, names)
    decreases |h| - d, 1, |names|
  {
    if names != [] {
      assert names[0] in names && names == [names[0]] + names[1..];
      SameEntry(h, o, g, u, p, d, e, names[0], |names| == 1, prefix);
      SameItems(h, o, g, u, p, d, e, names[1..], prefix);
      BothParts(EntryLines(h, o, d, names[0], |names| == 1, prefix), ItemLines(h, o, d, names[1..], prefix),
                EntryLines(g, u, e, names[0], |names| == 1, prefix), ItemLines(g, u, e, names[1..], prefix));
    }
  }

  lemma {:induction false} SameEntry(h: Heap, o: Orders, g: Heap, u: Orders, p: Path, d: nat, e: nat, name: string,
                                     last: bool, prefix: string)
    requires SameTree(h, g) && Ordered(h, o) && Ordered(g, u) && Where(h, p) == Some(d) && Where(g, p) == Some(e)
    requires name in h[d] && name in g[e]
    ensures |EntryLines(h, o, d, name, last, prefix)| == |EntryLines(g, u, e, name, last, prefix)|
    ensures EntryLines(h, o, d, name, last, prefix) == EntryLines(g, u, e, name, last, prefix) <==>
            Agree(h, o, g, u, p, d, [name])
    decreases |h| - d, 0, 0
  {
    SameKind(h, g, p, d, e, name);
    ChildAt(h, p, d, name);
    AgreeOne(h, o, g, u, p, d, name);
    match h[d][name]
    case File(s) =>
    case Dir(a) =>
      var b := g[e][name].id;
      assert Refers(h, d, name, a) && Refers(g, e, name, b);
      SameKeys(h, g, p + [name], a, b);
      if TakenForFile(h[a]) {
        SamePosing(h, o, g, u, p + [name], a, b);
        SymbolsTell(name, Posing(h, o, a), Posing(g, u, b), last, prefix);
      } else {
        SameLines(h, o, g, u, p + [name], a, b, prefix + Pad(last));
        SameInner(h, o, g, u, a, b, prefix + Pad(last));
        var first := [prefix + (Connector(last) + (name + "/"))];
        BothParts(first, InnerLines(h, o, a, prefix + Pad(last)), first, InnerLines(g, u, b, prefix + Pad(last)));
      }
  }

  lemma SameInner(h: Heap, o: Orders, g: Heap, u: Orders, a: nat, b: nat, prefix: string)
    requires Valid(h) && Valid(g) && Ordered(h, o) && Ordered(g, u) && a < |h| && b < |g| && h[a].Keys == g[b].Keys
    requires |Lines(h, o, a, prefix)| == |Lines(g, u, b, prefix)|
    ensures |InnerLines(h, o, a, prefix)| == |InnerLines(g, u, b, prefix)|
    ensures InnerLines(h, o, a, prefix) == InnerLines(g, u, b, prefix) <==>
            Lines(h, o, a, prefix) == Lines(g, u, b, prefix)
  {
    if h[a] == map[] {
      assert g[b].Keys == {};
      SortedLength(SortedOf(h[a].Keys), {});
      SortedLength(SortedOf(g[b].Keys), {});
    } else {
      assert h[a].Keys != {};
    }
  }

  /** Under one name: the directory itself, if it is taken for a file, or else all within it. */
  lemma {:induction false} AgreeOne(h: Heap, o: Orders, g: Heap, u: Orders, p: Path, d: nat, name: string)
    requires SameTree(h, g) && Ordered(h, o) && Ordered(g, u) && Where(h, p) == Some(d) && name in h[d]
    ensures match h[d][name]
            case File(_) => Agree(h, o, g, u, p, d, [name])
            case Dir(a) =>
              a < |h| && (Agree(h, o, g, u, p, d, [name]) <==>
                          if TakenForFile(h[a]) then SamePose(h, o, g, u, p + [name])
                          else Agree(h, o, g, u, p + [name], a, SortedOf(h[a].Keys)))
  {
    ChildAt(h, p, d, name);
    match h[d][name]
    case File(_) =>
      forall y | Shown(h, d, y) && y[0] in [name] ensures !Mistaken(h, p + y) {
        assert y == [name];
      }
    case Dir(a) =>
      assert Refers(h, d, name, a);
      if TakenForFile(h[a]) {
        assert Shown(h, d, [name]);
        forall y | Shown(h, d, y) && y[0] in [name] ensures y == [name] {}
      } else {
        AgreeInside(h, o, g, u, p, d, name, a);
      }
  }

  lemma {:induction false} AgreeInside(h: Heap, o: Orders, g: Heap, u: Orders, p: Path, d: nat, name: string, a: nat)
    requires SameTree(h, g) && Ordered(h, o) && Ordered(g, u) && Where(h, p) == Some(d) && Refers(h, d, name, a)
    requires a < |h| && !TakenForFile(h[a])
    ensures Agree(h, o, g, u, p, d, [name]) <==> Agree(h, o, g, u, p + [name], a, SortedOf(h[a].Keys))
  {
    var names := SortedOf(h[a].Keys);
    if Agree(h, o, g, u, p, d, [name]) {
      forall y | Shown(h, a, y) && y[0] in names && Mistaken(h, p + [name] + y)
        ensures SamePose(h, o, g, u, p + [name] + y)
      {
        ShownInside(h, p, d, name, a, y);
      }
    }
    if Agree(h, o, g, u, p + [name], a, names) {
      forall y | Shown(h, d, y) && y[0] in [name] && Mistaken(h, p + y) ensures SamePose(h, o, g, u, p + y) {
        assert y == [name] + y[1..];
        ShownInside(h, p, d, name, a, y[1..]);
      }
    }
  }

  lemma ShownInside(h: Heap, p: Path, d: nat, name: string, a: nat, y: Path)
    requires Valid(h) && Refers(h, d, name, a) && a < |h| && !TakenForFile(h[a])
    ensures Shown(h, d, [name] + y) <==> Shown(h, a, y)
    ensures p + ([name] + y) == p + [name] + y
    ensures Shown(h, a, y) ==> y[0] in SortedOf(h[a].Keys)
  {
    assert ([name] + y)[1..] == y;
  }

  /** Two trees with the same files are printed alike if and only if every directory that is listed
      as a file is printed with the same symbols in both. */
  lemma {:induction false} PrintedAlike(h: Heap, o: Orders, g: Heap, u: Orders)
    requires SameTree(h, g) && Ordered(h, o) && Ordered(g, u)
    ensures Lines(h, o, 0, "") == Lines(g, u, 0, "") <==>
            forall x :: Shown(h, 0, x) && Mistaken(h, x) ==> SamePose(h, o, g, u, x)
  {
    SameLines(h, o, g, u, [], 0, 0, "");
    forall x: Path ensures [] + x == x && (Shown(h, 0, x) ==> x[0] in SortedOf(h[0].Keys)) {}
    if Lines(h, o, 0, "") == Lines(g, u, 0, "") {
      forall x | Shown(h, 0, x) && Mistaken(h, x) ensures SamePose(h, o, g, u, x) {
        assert Mistaken(h, [] + x);
      }
    }
  }
}
