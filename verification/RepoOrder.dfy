/** When the printed map depends on the order in which the files are listed: exactly when a directory
    is taken for a file and something of what is printed for it can come in more than one order. */
module RepoOrder {
  import opened Text
  import opened Order
  import opened Repr
  import opened RepoTree
  import opened RepoGrowth
  import opened RepoListing
  import opened RepoMap
  import opened RepoAlike

  /* ---------- The printed map of a list of files ---------- */

  lemma SomeTree(files: seq<(Path, Symbols)>)
    requires Separate(files)
    ensures exists h, o :: Grown(h, o, files)
  {
    var h, o := CanGrow(files);
  }

  ghost function TreeOf(files: seq<(Path, Symbols)>): (t: (Heap, Orders))
    requires Separate(files)
    ensures Grown(t.0, t.1, files)
  {
    SomeTree(files);
    var h, o :| Grown(h, o, files);
    (h, o)
  }

  /** The map printed when the files are listed in this order. */
  ghost function Printed(files: seq<(Path, Symbols)>): seq<string>
    requires Separate(files)
  {
    Lines(TreeOf(files).0, TreeOf(files).1, 0, "")
  }

  /** Another listing of the same files. */
  ghost predicate SameFiles(files: seq<(Path, Symbols)>, others: seq<(Path, Symbols)>) {
    Separate(others) && forall f :: f in files <==> f in others
  }

  lemma SameAt(h: Heap, g: Heap, files: seq<(Path, Symbols)>, others: seq<(Path, Symbols)>, q: Path)
    requires Valid(h) && Holds(h, files, |files|) && Valid(g) && Holds(g, others, |others|)
    requires forall f :: f in files ==> f in others
    ensures FileAt(h, q).Some? ==> FileAt(g, q) == FileAt(h, q)
    ensures Where(h, q).Some? ==> Where(g, q).Some?
  {
    if FileAt(h, q).Some? {
      var i :| 0 <= i < |files| && files[i].0 == q;
      assert files[i] in others;
      var j :| 0 <= j < |others| && others[j] == files[i];
      assert FileAt(g, others[j].0) == Some(others[j].1);
    }
    if Where(h, q).Some? && q != [] {
      var i :| 0 <= i < |files| && q < files[i].0;
      assert files[i] in others;
      var j :| 0 <= j < |others| && others[j] == files[i];
      assert q < others[j].0;
    }
  }

  lemma GrownSame(h: Heap, o: Orders, files: seq<(Path, Symbols)>,
                                     g: Heap, u: Orders, others: seq<(Path, Symbols)>)
    requires Grown(h, o, files) && Grown(g, u, others) && forall f :: f in files <==> f in others
    ensures SameTree(h, g)
  {
    forall q ensures FileAt(h, q) == FileAt(g, q) && Where(h, q).Some? == Where(g, q).Some? {
      SameAt(h, g, files, others, q);
      SameAt(g, h, others, files, q);
    }
  }

  /* ---------- Equal orders, equal symbols ---------- */

  /** From `p` on all keys come in the same order. */
  ghost predicate SameOrder(h: Heap, o: Orders, g: Heap, u: Orders, p: Path)
    requires Valid(h) && Ordered(h, o) && Valid(g) && Ordered(g, u)
  {
    forall q :: p <= q ==> OrderAt(h, o, q) == OrderAt(g, u, q)
  }

  lemma {:induction false} SameText(h: Heap, o: Orders, g: Heap, u: Orders, p: Path, d: nat, e: nat)
    requires SameTree(h, g) && Ordered(h, o) && Ordered(g, u) && Where(h, p) == Some(d) && Where(g, p) == Some(e)
    requires SameOrder(h, o, g, u, p)
    ensures DictText(h, o, d) == DictText(g, u, e)
    decreases |h| - d, 2, 0
  {
    assert OrderAt(h, o, p) == OrderAt(g, u, p);
    SameKeys(h, g, p, d, e);
    SameItemsText(h, o, g, u, p, d, e, o[d]);
  }

  lemma {:induction false} SameItemsText(h: Heap, o: Orders, g: Heap, u: Orders, p: Path, d: nat, e: nat,
                                         names: seq<string>)
    requires SameTree(h, g) && Ordered(h, o) && Ordered(g, u) && Where(h, p) == Some(d) && Where(g, p) == Some(e)
    requires SameOrder(h, o, g, u, p) && forall n :: n in names ==> n in h[d] && n in g[e]
    ensures ItemsText(h, o, d, names) == ItemsText(g, u, e, names)
    decreases |h| - d, 1, |names|
  {
    if names != [] {
      assert names[0] in names && names == [names[0]] + names[1..];
      SameEntryText(h, o, g, u, p, d, e, names[0]);
      SameItemsText(h, o, g, u, p, d, e, names[1..]);
    }
  }

  lemma {:induction false} SameEntryText(h: Heap, o: Orders, g: Heap, u: Orders, p: Path, d: nat, e: nat, name: string)
    requires SameTree(h, g) && Ordered(h, o) && Ordered(g, u) && Where(h, p) == Some(d) && Where(g, p) == Some(e)
    requires SameOrder(h, o, g, u, p + [name]) && name in h[d] && name in g[e]
    ensures EntryText(h, o, d, name) == EntryText(g, u, e, name)
    decreases |h| - d, 0, 0
  {
    SameKind(h, g, p, d, e, name);
    if h[d][name].Dir? {
      assert Refers(h, d, name, h[d][name].id) && Refers(g, e, name, g[e][name].id);
      SameText(h, o, g, u, p + [name], h[d][name].id, g[e][name].id);
    }
  }

  /** The directory at `x` poses alike if its `classes` and `functions` and all within its `error`
      come in the same order. */
  lemma SamePosed(h: Heap, o: Orders, g: Heap, u: Orders, x: Path)
    requires SameTree(h, g) && Ordered(h, o) && Ordered(g, u)
    requires OrderAt(h, o, x + ["classes"]) == OrderAt(g, u, x + ["classes"])
    requires OrderAt(h, o, x + ["functions"]) == OrderAt(g, u, x + ["functions"])
    requires SameOrder(h, o, g, u, x + ["error"])
    ensures SamePose(h, o, g, u, x)
  {
    if Where(h, x).Some? && Where(g, x).Some? {
      var d, e := Where(h, x).value, Where(g, x).value;
      SameUnder(h, o, g, u, x, d, e, "classes");
      SameUnder(h, o, g, u, x, d, e, "functions");
      SameUnder(h, o, g, u, x, d, e, "error");
      SameKeys(h, g, x, d, e);
      if "error" in h[d] {
        SameEntryText(h, o, g, u, x, d, e, "error");
      }
    }
  }

  /** Any tree grown from the files is printed as their map. */
  lemma PrintedIs(h: Heap, o: Orders, files: seq<(Path, Symbols)>)
    requires Separate(files) && Grown(h, o, files)
    ensures Lines(h, o, 0, "") == Printed(files)
  {
    GrownAlike(h, o, TreeOf(files).0, TreeOf(files).1, files);
  }

  lemma GrownAlike(h: Heap, o: Orders, g: Heap, u: Orders, files: seq<(Path, Symbols)>)
    requires Grown(h, o, files) && Grown(g, u, files)
    ensures Lines(h, o, 0, "") == Lines(g, u, 0, "")
  {
    GrownSame(h, o, files, g, u, files);
    assert SameOrder(h, o, g, u, []);
    OrderedAlike(h, o, g, u);
  }

  /** Trees with the same files and the same order everywhere are printed alike. */
  lemma OrderedAlike(h: Heap, o: Orders, g: Heap, u: Orders)
    requires SameTree(h, g) && Ordered(h, o) && Ordered(g, u) && SameOrder(h, o, g, u, [])
    ensures Lines(h, o, 0, "") == Lines(g, u, 0, "")
  {
    forall x: Path ensures SamePose(h, o, g, u, x) {
      assert SameOrder(h, o, g, u, x + ["error"]);
      SamePosed(h, o, g, u, x);
    }
    PrintedAlike(h, o, g, u);
  }

  /* ---------- Different orders, different symbols ---------- */

  /** Equal texts of directories begin with the same name, and go on alike. */
  lemma FirstTells(h: Heap, o: Orders, g: Heap, u: Orders, d: nat, e: nat)
    requires Valid(h) && Ordered(h, o) && d < |h| && o[d] != [] && Valid(g) && Ordered(g, u) && e < |g| && u[e] != []
    requires DictText(h, o, d) == DictText(g, u, e)
    ensures o[d][0] == u[e][0] && o[d][0] in h[d] && u[e][0] in g[e]
    ensures |o[d]| == 1 && |u[e]| == 1 ==> EntryText(h, o, d, o[d][0]) == EntryText(g, u, e, u[e][0])
  {
    assert o[d][0] in o[d] && u[e][0] in u[e];
    var x := EntryText(h, o, d, o[d][0]) + MoreText(h, o, d, o[d][1..]);
    var y := EntryText(g, u, e, u[e][0]) + MoreText(g, u, e, u[e][1..]);
    DictOpens(h, o, d);
    DictOpens(g, u, e);
    BothParts("{", Quoted(o[d][0]) + (": " + x + "}"), "{", Quoted(u[e][0]) + (": " + y + "}"));
    QuotedSplits(o[d][0], u[e][0], ": " + x + "}", ": " + y + "}");
    SameLength(": " + x, ": " + y, "}");
    BothParts(": ", x, ": ", y);
    if |o[d]| == 1 && |u[e]| == 1 {
      NoMore(h, o, d);
      NoMore(g, u, e);
    }
  }

  lemma SameLength(x: string, y: string, end: string)
    requires x + end == y + end
    ensures x == y
  {
    assert |x| == |y|;
    BothParts(x, end, y, end);
  }

  lemma NoMore(h: Heap, o: Orders, d: nat)
    requires Valid(h) && Ordered(h, o) && d < |h| && |o[d]| == 1 && o[d][0] in h[d]
    ensures EntryText(h, o, d, o[d][0]) + MoreText(h, o, d, o[d][1..]) == EntryText(h, o, d, o[d][0])
  {}

  lemma DictOpens(h: Heap, o: Orders, d: nat)
    requires Valid(h) && Ordered(h, o) && d < |h| && o[d] != [] && o[d][0] in h[d]
    ensures DictText(h, o, d) ==
            "{" + (Quoted(o[d][0]) + (": " + (EntryText(h, o, d, o[d][0]) + MoreText(h, o, d, o[d][1..])) + "}"))
  {
    var q, x := Quoted(o[d][0]), EntryText(h, o, d, o[d][0]) + MoreText(h, o, d, o[d][1..]);
    assert ItemsText(h, o, d, o[d]) == q + (": " + x);
    Assoc(q, ": " + x, "}");
  }

  lemma Assoc(a: string, b: string, c: string)
    ensures (a + b) + c == a + (b + c)
  {}

  /** So does the text of any directory that is reached from there by single entries. */
  lemma {:induction false} TextTells(h: Heap, o: Orders, g: Heap, u: Orders, p: Path, d: nat, e: nat, q: Path)
    requires SameTree(h, g) && Ordered(h, o) && Ordered(g, u) && Where(h, p) == Some(d) && Where(g, p) == Some(e)
    requires DictText(h, o, d) == DictText(g, u, e) && p <= q && OrderAt(h, o, q) != []
    requires forall k :: |p| <= k < |q| ==> |OrderAt(h, o, q[..k])| <= 1
    ensures OrderAt(g, u, q) != [] && OrderAt(g, u, q)[0] == OrderAt(h, o, q)[0]
    decreases |q| - |p|
  {
    SameCount(h, o, g, u, p, d, e);
    if p == q {
      FirstTells(h, o, g, u, d, e);
    } else {
      var name := q[|p|];
      NextOnWay(h, o, p, d, q);
      SameKind(h, g, p, d, e, name);
      FirstTells(h, o, g, u, d, e);
      assert Refers(h, d, name, h[d][name].id) && Refers(g, e, name, g[e][name].id);
      TextTells(h, o, g, u, p + [name], h[d][name].id, g[e][name].id, q);
    }
  }

  lemma NextOnWay(h: Heap, o: Orders, p: Path, d: nat, q: Path)
    requires Valid(h) && Ordered(h, o) && Where(h, p) == Some(d) && p < q && Where(h, q).Some?
    requires |OrderAt(h, o, q[..|p|])| <= 1
    ensures q[|p|] in h[d] && h[d][q[|p|]].Dir? && o[d] == [q[|p|]] && p + [q[|p|]] <= q
  {
    NextName(p, q);
    AboveIs(h, q, |p| + 1);
    ChildAt(h, p, d, q[|p|]);
    OneKey(h, o, d, q[|p|]);
  }

  lemma NextName(p: Path, q: Path)
    requires p < q
    ensures q[..|p|] == p && q[..|p| + 1] == p + [q[|p|]] && p + [q[|p|]] <= q
  {}

  lemma OneKey(h: Heap, o: Orders, d: nat, name: string)
    requires Ordered(h, o) && d < |h| && name in h[d] && |o[d]| <= 1
    ensures o[d] == [name]
  {
    assert name in o[d];
  }

  /** Directories that pose alike have their `classes` and `functions` in the same order, and
      beneath their `error` the first fork begins alike. */
  lemma PoseTells(h: Heap, o: Orders, g: Heap, u: Orders, x: Path, q: Path)
    requires SameTree(h, g) && Ordered(h, o) && Ordered(g, u) && Where(h, x).Some? && SamePose(h, o, g, u, x)
    requires OrderAt(h, o, q) != [] && OnShow(x, q)
    requires forall k :: |x| < k < |q| ==> |OrderAt(h, o, q[..k])| <= 1
    ensures OrderAt(g, u, q) != [] && OrderAt(g, u, q)[0] == OrderAt(h, o, q)[0]
  {
    assert Where(g, x).Some?;
    var d, e := Where(h, x).value, Where(g, x).value;
    if x + ["error"] <= q {
      ErrorTells(h, o, g, u, x, d, e, q);
    } else {
      SameUnder(h, o, g, u, x, d, e, "classes");
      SameUnder(h, o, g, u, x, d, e, "functions");
    }
  }

  /** The directories whose order shows in what is printed for one that is taken for a file. */
  predicate OnShow(x: Path, q: Path) {
    q == x + ["classes"] || q == x + ["functions"] || x + ["error"] <= q
  }

  lemma ErrorTells(h: Heap, o: Orders, g: Heap, u: Orders, x: Path, d: nat, e: nat, q: Path)
    requires SameTree(h, g) && Ordered(h, o) && Ordered(g, u) && Where(h, x) == Some(d) && Where(g, x) == Some(e)
    requires Posing(h, o, d) == Posing(g, u, e) && OrderAt(h, o, q) != [] && x + ["error"] <= q
    requires forall k :: |x| < k < |q| ==> |OrderAt(h, o, q[..k])| <= 1
    ensures OrderAt(g, u, q) != [] && OrderAt(g, u, q)[0] == OrderAt(h, o, q)[0]
  {
    var p := x + ["error"];
    assert q[..|p|] == p;
    AboveIs(h, q, |p|);
    ErrorText(h, o, g, u, x, d, e);
    TextTells(h, o, g, u, p, Where(h, p).value, Where(g, p).value, q);
  }

  lemma ErrorText(h: Heap, o: Orders, g: Heap, u: Orders, x: Path, d: nat, e: nat)
    requires SameTree(h, g) && Ordered(h, o) && Ordered(g, u) && Where(h, x) == Some(d) && Where(g, x) == Some(e)
    requires Where(h, x + ["error"]).Some? && Posing(h, o, d).error == Posing(g, u, e).error
    ensures Where(g, x + ["error"]).Some?
    ensures DictText(h, o, Where(h, x + ["error"]).value) == DictText(g, u, Where(g, x + ["error"]).value)
  {
    ChildAt(h, x, d, "error");
    SameKind(h, g, x, d, e, "error");
    var a, b := h[d]["error"].id, g[e]["error"].id;
    assert Refers(h, d, "error", a) && Refers(g, e, "error", b);
    SameUnder(h, o, g, u, x, d, e, "error");
    SameCount(h, o, g, u, x + ["error"], a, b);
  }
}
