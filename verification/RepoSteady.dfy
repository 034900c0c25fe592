/** The files whose map is the same in whatever order they are listed. */
module RepoSteady {
  import opened Text
  import opened Order
  import opened RepoTree
  import opened RepoListing
  import opened RepoMap
  import opened RepoAlike
  import opened RepoOrder

  /* ---------- The condition ---------- */

  /** The directory at `x` has an entry that makes it pass for a file. */
  predicate Passes(files: seq<(Path, Symbols)>, x: Path) {
    x != [] && ("classes" in Children(files, x) || "functions" in Children(files, x))
  }

  /** It passes for a file and is listed as one, since none of those above it does. */
  ghost predicate Posed(files: seq<(Path, Symbols)>, x: Path) {
    Passes(files, x) && forall k :: 0 < k < |x| ==> !Passes(files, x[..k])
  }

  /** All that is printed for it comes in one order only: there is at most one entry in its `classes`
      and its `functions`, and in any directory from its `error` on. */
  ghost predicate Settled(files: seq<(Path, Symbols)>, x: Path) {
    forall q :: OnShow(x, q) ==> |Children(files, q)| <= 1
  }

  ghost predicate Steady(files: seq<(Path, Symbols)>) {
    forall x :: Posed(files, x) ==> Settled(files, x)
  }

  /** Where the names are clear no directory passes for a file. */
  lemma ClearIsSteady(files: seq<(Path, Symbols)>)
    requires Clear(files)
    ensures Steady(files)
  {
    forall x ensures !Passes(files, x) {
      ChildrenAre(files, x);
    }
  }

  /** The children of a path are the next names of the files below it, each once. */
  lemma {:induction false} ChildrenAre(files: seq<(Path, Symbols)>, q: Path)
    ensures forall n :: n in Children(files, q) <==> exists i :: 0 <= i < |files| && NextIs(files[i].0, q, n)
    ensures Lists(Children(files, q), set n | n in Children(files, q))
  {
    if files != [] {
      var n := |files| - 1;
      ChildrenAre(files[..n], q);
      assert forall i :: 0 <= i < n ==> files[..n][i] == files[i];
    }
  }

  predicate NextIs(p: Path, q: Path, n: string) { q < p && p[|q|] == n }

  /** In a tree grown from the files, the directories listed as files are these. */
  lemma PosedIs(h: Heap, o: Orders, files: seq<(Path, Symbols)>, x: Path)
    requires Grown(h, o, files)
    ensures Shown(h, 0, x) && Mistaken(h, x) <==> Posed(files, x)
  {
    PassesIs(h, o, files, x);
    assert [] + x == x;
    ShownAt(h, [], 0, x);
    if Mistaken(h, x) {
      forall k | 0 < k < |x| ensures Listable(h, [] + x[..k]) <==> !Passes(files, x[..k]) {
        ListableIs(h, o, files, x, k);
      }
    }
  }

  lemma ListableIs(h: Heap, o: Orders, files: seq<(Path, Symbols)>, x: Path, k: nat)
    requires Grown(h, o, files) && Where(h, x).Some? && 0 < k < |x|
    ensures Listable(h, [] + x[..k]) <==> !Passes(files, x[..k])
  {
    assert [] + x[..k] == x[..k];
    AboveIs(h, x, k);
    PassesIs(h, o, files, x[..k]);
  }

  lemma PassesIs(h: Heap, o: Orders, files: seq<(Path, Symbols)>, x: Path)
    requires Grown(h, o, files)
    ensures Mistaken(h, x) <==> Passes(files, x)
  {
    assert OrderAt(h, o, x) == Children(files, x);
    if Where(h, x).Some? {
      assert Lists(o[Where(h, x).value], h[Where(h, x).value].Keys);
    }
  }

  /* ---------- It suffices ---------- */

  /** Where the children are one at most, they come in one order. */
  lemma OneOrder(files: seq<(Path, Symbols)>, others: seq<(Path, Symbols)>, q: Path)
    requires |Children(files, q)| <= 1 && forall f :: f in files <==> f in others
    ensures Children(others, q) == Children(files, q)
  {
    var a, b := Children(files, q), Children(others, q);
    ChildrenAre(files, q);
    ChildrenAre(others, q);
    forall n ensures n in a <==> n in b {
      NextInOther(files, others, q, n);
      NextInOther(others, files, q, n);
    }
    var s := set n | n in a;
    assert s == set n | n in b;
    ListsLength(a, s);
    ListsLength(b, s);
    if |a| == 1 {
      assert a[0] in b;
    }
  }

  lemma NextInOther(files: seq<(Path, Symbols)>, others: seq<(Path, Symbols)>, q: Path, n: string)
    requires forall f :: f in files ==> f in others
    ensures (exists i :: 0 <= i < |files| && NextIs(files[i].0, q, n)) ==>
            exists j :: 0 <= j < |others| && NextIs(others[j].0, q, n)
  {
    if i :| 0 <= i < |files| && NextIs(files[i].0, q, n) {
      assert files[i] in others;
      var j :| 0 <= j < |others| && others[j] == files[i];
      assert NextIs(others[j].0, q, n);
    }
  }

  lemma SteadyPose(h: Heap, o: Orders, files: seq<(Path, Symbols)>,
                                      g: Heap, u: Orders, others: seq<(Path, Symbols)>, x: Path)
    requires Grown(h, o, files) && Grown(g, u, others) && (forall f :: f in files <==> f in others)
    requires SameTree(h, g) && Settled(files, x)
    ensures SamePose(h, o, g, u, x)
  {
    forall q | OnShow(x, q) ensures OrderAt(h, o, q) == OrderAt(g, u, q) {
      OneOrder(files, others, q);
    }
    assert OnShow(x, x + ["classes"]) && OnShow(x, x + ["functions"]);
    SamePosed(h, o, g, u, x);
  }

  lemma SteadyPrinted(files: seq<(Path, Symbols)>, others: seq<(Path, Symbols)>)
    requires Separate(files) && SameFiles(files, others) && Steady(files)
    ensures Printed(others) == Printed(files)
  {
    var h, o, g, u := TreeOf(files).0, TreeOf(files).1, TreeOf(others).0, TreeOf(others).1;
    GrownSame(h, o, files, g, u, others);
    forall x | Shown(h, 0, x) && Mistaken(h, x) ensures SamePose(h, o, g, u, x) {
      PosedIs(h, o, files, x);
      SteadyPose(h, o, files, g, u, others, x);
    }
    PrintedAlike(h, o, g, u);
  }

  /* ---------- It is necessary ---------- */

  /** One file moved to the front of the list. */
  function Moved(files: seq<(Path, Symbols)>, j: nat): seq<(Path, Symbols)>
    requires j < |files|
  {
    [files[j]] + files[..j] + files[j + 1..]
  }

  /** Where an entry of the new list was in the old one. */
  function Was(i: nat, j: nat): nat { if i == 0 then j else if i <= j then i - 1 else i }

  lemma MovedSame(files: seq<(Path, Symbols)>, j: nat)
    requires Separate(files) && j < |files|
    ensures SameFiles(files, Moved(files, j))
  {
    var others := Moved(files, j);
    assert forall i :: 0 <= i < |others| ==> others[i] == files[Was(i, j)];
    assert files == files[..j] + [files[j]] + files[j + 1..];
  }

  /** The file at the front decides which child comes first. */
  lemma {:induction false} FirstChild(files: seq<(Path, Symbols)>, q: Path)
    requires files != [] && q < files[0].0
    ensures Children(files, q) != [] && Children(files, q)[0] == files[0].0[|q|]
    decreases |files|
  {
    if |files| > 1 {
      FirstChild(files[..|files| - 1], q);
    } else {
      assert files[..0] == [];
    }
  }

  /** The shortest path with more than one child, between two. */
  lemma {:induction false} FirstFork(files: seq<(Path, Symbols)>, n: nat, q: Path) returns (r: Path)
    requires n <= |q| && |Children(files, q)| > 1
    ensures n <= |r| <= |q| && r == q[..|r|] && |Children(files, r)| > 1
    ensures forall k :: n <= k < |r| ==> |Children(files, r[..k])| <= 1
    decreases |q|
  {
    r := q;
    if k :| n <= k < |q| && |Children(files, q[..k])| > 1 {
      r := FirstFork(files, n, q[..k]);
      assert q[..k][..|r|] == q[..|r|];
    }
  }

  /** Whatever shows more than one child and is reached by single ones shows another order when the
      file behind its second child is listed first. */
  lemma Reordered(files: seq<(Path, Symbols)>, x: Path, q: Path) returns (others: seq<(Path, Symbols)>)
    requires Separate(files) && Posed(files, x) && OnShow(x, q) && |Children(files, q)| > 1
    requires forall k :: |x| < k < |q| ==> |Children(files, q[..k])| <= 1
    ensures SameFiles(files, others) && Printed(others) != Printed(files)
  {
    ChildrenAre(files, q);
    var second := Children(files, q)[1];
    assert second in Children(files, q);
    var j :| 0 <= j < |files| && NextIs(files[j].0, q, second);
    others := Moved(files, j);
    MovedSame(files, j);
    FirstChild(others, q);
    DifferentFirst(files, others, x, q);
  }

  lemma DifferentFirst(files: seq<(Path, Symbols)>, others: seq<(Path, Symbols)>, x: Path, q: Path)
    requires Separate(files) && SameFiles(files, others) && Posed(files, x) && OnShow(x, q)
    requires Children(files, q) != [] && Children(others, q) != [] && Children(files, q)[0] != Children(others, q)[0]
    requires forall k :: |x| < k < |q| ==> |Children(files, q[..k])| <= 1
    ensures Printed(others) != Printed(files)
  {
    var h, o, g, u := TreeOf(files).0, TreeOf(files).1, TreeOf(others).0, TreeOf(others).1;
    if Printed(others) == Printed(files) {
      GrownSame(h, o, files, g, u, others);
      PosedIs(h, o, files, x);
      PrintedAlike(h, o, g, u);
      assert Follows(h, o, files) && Follows(g, u, others);
      OrderTells(h, o, files, g, u, others, x, q);
    }
  }

  lemma OrderTells(h: Heap, o: Orders, files: seq<(Path, Symbols)>,
                                      g: Heap, u: Orders, others: seq<(Path, Symbols)>, x: Path, q: Path)
    requires SameTree(h, g) && Ordered(h, o) && Ordered(g, u) && Follows(h, o, files) && Follows(g, u, others)
    requires Where(h, x).Some? && SamePose(h, o, g, u, x)
    requires OnShow(x, q) && Children(files, q) != []
    requires forall k :: |x| < k < |q| ==> |Children(files, q[..k])| <= 1
    ensures Children(others, q) != [] && Children(others, q)[0] == Children(files, q)[0]
  {
    assert OrderAt(h, o, q) == Children(files, q) && OrderAt(g, u, q) == Children(others, q);
    forall k | |x| < k < |q| ensures |OrderAt(h, o, q[..k])| <= 1 {
      assert OrderAt(h, o, q[..k]) == Children(files, q[..k]);
    }
    PoseTells(h, o, g, u, x, q);
  }

  lemma Unsteady(files: seq<(Path, Symbols)>) returns (others: seq<(Path, Symbols)>)
    requires Separate(files) && !Steady(files)
    ensures SameFiles(files, others) && Printed(others) != Printed(files)
  {
    var x :| Posed(files, x) && !Settled(files, x);
    var q :| OnShow(x, q) && |Children(files, q)| > 1;
    if x + ["error"] <= q {
      var r := FirstFork(files, |x| + 1, q);
      assert (x + ["error"]) == q[..|x| + 1] == r[..|x| + 1];
      others := Reordered(files, x, r);
    } else {
      others := Reordered(files, x, q);
    }
  }

  /** The map is the same in whatever order the files are listed if and only if all that is printed
      for directories listed as files comes in one order only. */
  lemma OrderIrrelevant(files: seq<(Path, Symbols)>)
    requires Separate(files)
    ensures (forall others :: SameFiles(files, others) ==> Printed(others) == Printed(files)) <==> Steady(files)
  {
    if Steady(files) {
      forall others | SameFiles(files, others) ensures Printed(others) == Printed(files) {
        SteadyPrinted(files, others);
      }
    } else {
      var others := Unsteady(files);
    }
  }

  /* ---------- Two files in a directory called `classes` ---------- */

  /** Two files in the directory `classes` of a package, as in `pkg/classes/a.py` and `pkg/classes/b.py`. */
  function Pair(dir: string, sub: string, a: string, b: string, s: Symbols, t: Symbols): seq<(Path, Symbols)> {
    [([dir, sub, a], s), ([dir, sub, b], t)]
  }

  /** There are such names. */
  lemma SampleFiles(dir: string, a: string, b: string)
    requires dir == "pkg" && a == "a.py" && b == "b.py"
    ensures GoodName(dir) && GoodName(a) && GoodName(b) && a != b
  {}

  /** They are printed as classes of a file called like the package, in the order listed. */
  lemma ClassesInOrder(dir: string, sub: string, a: string, b: string, s: Symbols, t: Symbols)
    requires sub == "classes" && GoodName(dir) && GoodName(a) && GoodName(b) && a != b
    ensures Separate(Pair(dir, sub, a, b, s, t))
    ensures Printed(Pair(dir, sub, a, b, s, t)) == FileLines(dir, Symbols([a, b], [], None), true, "")
  {
    var files := Pair(dir, sub, a, b, s, t);
    PairSeparate(dir, sub, a, b, s, t);
    PairChildren(dir, sub, a, b, s, t);
    assert [dir] < files[0].0 && [dir, sub] < files[0].0 && [] + [dir] == [dir] && [dir] + [sub] == [dir, sub];
    var h, o := TreeOf(files).0, TreeOf(files).1;
    assert Where(h, [dir]).Some? && Where(h, [dir, sub]).Some?;
    ChainPrinted(h, o, files, dir, sub);
  }

  /** One directory that has nothing but `classes` in it. */
  lemma ChainPrinted(h: Heap, o: Orders, files: seq<(Path, Symbols)>, dir: string, sub: string)
    requires Valid(h) && Ordered(h, o) && Follows(h, o, files) && sub == "classes"
    requires Children(files, []) == [dir] && Children(files, [dir]) == [sub]
    requires Where(h, [] + [dir]).Some? && Where(h, [dir] + [sub]).Some?
    ensures Lines(h, o, 0, "") == FileLines(dir, Symbols(Children(files, [dir] + [sub]), [], None), true, "")
  {
    OnlyChild(h, o, files, [], 0, dir);
    assert [] + [dir] == [dir];
    var d := Where(h, [dir]).value;
    OnlyChild(h, o, files, [dir], d, sub);
    ClassesPose(h, o, [dir], d, sub);
    OneLine(h, o, dir, d);
  }

  /** A directory with nothing but classes. */
  lemma ClassesPose(h: Heap, o: Orders, p: Path, d: nat, sub: string)
    requires Valid(h) && Ordered(h, o) && Where(h, p) == Some(d) && sub == "classes" && h[d].Keys == {sub}
    requires h[d][sub].Dir?
    ensures TakenForFile(h[d]) && Posing(h, o, d) == Symbols(OrderAt(h, o, p + [sub]), [], None)
  {
    ChildAt(h, p, d, sub);
    assert Refers(h, d, sub, h[d][sub].id);
  }

  /** The lines of a tree in which nothing is listed but one directory taken for a file. */
  lemma OneLine(h: Heap, o: Orders, dir: string, d: nat)
    requires Valid(h) && Ordered(h, o) && h[0].Keys == {dir} && h[0][dir] == Dir(d) && d < |h| && TakenForFile(h[d])
    ensures Lines(h, o, 0, "") == FileLines(dir, Posing(h, o, d), true, "")
  {
    SortedUnique(SortedOf({dir}), [dir], {dir});
    assert Refers(h, 0, dir, d);
    assert ItemLines(h, o, 0, [dir], "") == EntryLines(h, o, 0, dir, true, "") + [];
  }

  lemma PairSeparate(dir: string, sub: string, a: string, b: string, s: Symbols, t: Symbols)
    requires GoodName(dir) && GoodName(sub) && GoodName(a) && GoodName(b) && a != b
    ensures Separate(Pair(dir, sub, a, b, s, t))
    ensures SameFiles(Pair(dir, sub, a, b, s, t), Pair(dir, sub, b, a, t, s))
  {
    var p, q := [dir, sub, a], [dir, sub, b];
    assert p[2] == a && q[2] == b;
  }

  lemma PairChildren(dir: string, sub: string, a: string, b: string, s: Symbols, t: Symbols)
    requires a != b
    ensures var files := Pair(dir, sub, a, b, s, t);
            Children(files, []) == [dir] && Children(files, [dir]) == [sub] && Children(files, [dir, sub]) == [a, b]
  {
    var f, g := ([dir, sub, a], s), ([dir, sub, b], t);
    TwoFiles(f, g, []);
    TwoFiles(f, g, [dir]);
    TwoFiles(f, g, [dir, sub]);
  }

  lemma TwoFiles(f: (Path, Symbols), g: (Path, Symbols), q: Path)
    ensures Children([f, g], q) == Walked(Walked([], f.0, q), g.0, q)
  {
    OneMoreFile([f, g], 1, q);
    OneMoreFile([f, g], 0, q);
    assert [f, g][..2] == [f, g] && [f, g][..0] == [];
  }

  /** A directory with one name in it, which leads on. */
  lemma OnlyChild(h: Heap, o: Orders, files: seq<(Path, Symbols)>, p: Path, d: nat, name: string)
    requires Valid(h) && Ordered(h, o) && Follows(h, o, files) && Where(h, p) == Some(d)
    requires Children(files, p) == [name] && Where(h, p + [name]).Some?
    ensures h[d].Keys == {name} && h[d][name].Dir? && Where(h, p + [name]) == Some(h[d][name].id)
  {
    assert OrderAt(h, o, p) == [name] && Lists(o[d], h[d].Keys);
    ChildAt(h, p, d, name);
  }

  /** So the map depends on the order in which they are listed. */
  lemma ClassesReordered(dir: string, sub: string, a: string, b: string, s: Symbols, t: Symbols)
    requires sub == "classes" && GoodName(dir) && GoodName(a) && GoodName(b) && a != b
    ensures Separate(Pair(dir, sub, a, b, s, t)) && SameFiles(Pair(dir, sub, a, b, s, t), Pair(dir, sub, b, a, t, s))
    ensures Printed(Pair(dir, sub, a, b, s, t)) != Printed(Pair(dir, sub, b, a, t, s))
  {
    PairSeparate(dir, sub, a, b, s, t);
    ClassesInOrder(dir, sub, a, b, s, t);
    ClassesInOrder(dir, sub, b, a, t, s);
    SymbolsTell(dir, Symbols([a, b], [], None), Symbols([b, a], [], None), true, "");
  }
}
