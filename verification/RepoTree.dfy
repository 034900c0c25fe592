/** The repository map: nested dictionaries grown path by path through a moving reference. */
module RepoTree {
  import opened Text

  /** What is known about a Python file. */
  datatype Symbols = Symbols(classes: seq<string>, functions: seq<string>, error: Option<string>)

  /** A dictionary value: the symbols of a file, or a reference to the dictionary of a directory. */
  datatype Entry = File(symbols: Symbols) | Dir(id: nat)

  /** All dictionaries; the first is the root, and a reference is a position. */
  type Heap = seq<map<string, Entry>>

  /** The keys of each dictionary, in the order in which they were inserted. */
  type Orders = seq<seq<string>>

  type Path = seq<string>

  predicate Refers(h: Heap, d: nat, name: string, id: nat) {
    d < |h| && name in h[d] && h[d][name] == Dir(id)
  }

  /** References lead on to later dictionaries, and no dictionary is referred to twice. */
  ghost predicate Valid(h: Heap) {
    h != [] &&
    (forall d: nat, n, id: nat :: Refers(h, d, n, id) ==> d < id < |h|) &&
    forall d: nat, n, e: nat, m, id: nat :: Refers(h, d, n, id) && Refers(h, e, m, id) ==> d == e && n == m
  }

  /** A name as the file system has them. */
  predicate GoodName(n: string) { n != "" && '/' !in n }

  ghost predicate Named(h: Heap) {
    forall d: nat, n :: d < |h| && n in h[d] ==> GoodName(n)
  }

  /* ---------- The order of the keys ---------- */

  /** The elements of a set, each once. */
  ghost predicate Lists(l: seq<string>, s: set<string>) {
    (forall x :: x in l <==> x in s) && forall i, j :: 0 <= i < j < |l| ==> l[i] != l[j]
  }

  /** Some order of the keys of every dictionary. */
  ghost predicate Ordered(h: Heap, o: Orders) {
    |o| == |h| && forall d: nat :: d < |h| ==> Lists(o[d], h[d].Keys)
  }

  ghost predicate Proper(h: Heap, o: Orders) { Valid(h) && Named(h) && Ordered(h, o) }

  /** A key that is set goes to the end unless it is there already. */
  function Extended(l: seq<string>, n: string): seq<string> { if n in l then l else l + [n] }

  lemma ExtendedLists(l: seq<string>, s: set<string>, n: string)
    requires Lists(l, s)
    ensures Lists(Extended(l, n), s + {n})
  {}

  /* ---------- Paths ---------- */

  function Front(p: Path): Path
    requires p != []
  {
    p[..|p| - 1]
  }

  function Last(p: Path): string
    requires p != []
  {
    p[|p| - 1]
  }

  /** The directory a path leads to. */
  function Where(h: Heap, p: Path): (r: Option<nat>)
    requires Valid(h)
    ensures r.Some? ==> r.value < |h|
    ensures r == Some(0) <==> p == []
  {
    if p == [] then Some(0)
    else
      match Where(h, Front(p))
      case None => None
      case Some(d) =>
        if Last(p) in h[d] && h[d][Last(p)].Dir? then
          assert Refers(h, d, Last(p), h[d][Last(p)].id);
          Some(h[d][Last(p)].id)
        else None
  }

  /** The file at a path. */
  function FileAt(h: Heap, p: Path): Option<Symbols>
    requires Valid(h)
  {
    if p == [] || Where(h, Front(p)).None? then None
    else
      var dict := h[Where(h, Front(p)).value];
      if Last(p) in dict && dict[Last(p)].File? then Some(dict[Last(p)].symbols) else None
  }

  /** The keys of the dictionary at a path, in order. */
  function OrderAt(h: Heap, o: Orders, p: Path): seq<string>
    requires Valid(h) && |o| == |h|
  {
    match Where(h, p)
    case None => []
    case Some(d) => o[d]
  }

  /** Different paths lead to different directories. */
  lemma {:induction false} WhereInjective(h: Heap, p: Path, q: Path)
    requires Valid(h) && Where(h, p).Some? && Where(h, p) == Where(h, q)
    ensures p == q
    decreases |p|
  {
    if p != [] && q != [] {
      var d, e := Where(h, Front(p)).value, Where(h, Front(q)).value;
      var id := Where(h, p).value;
      assert Refers(h, d, Last(p), id) && Refers(h, e, Last(q), id);
      WhereInjective(h, Front(p), Front(q));
      assert p == Front(p) + [Last(p)] && q == Front(q) + [Last(q)];
    }
  }

  /* ---------- One more directory ---------- */

  function WithDir(h: Heap, d: nat, name: string): Heap
    requires d < |h|
  {
    h[d := h[d][name := Dir(|h|)]] + [map[]]
  }

  lemma WithDirRefers(h: Heap, d: nat, name: string)
    requires Valid(h) && d < |h| && name !in h[d]
    ensures Valid(WithDir(h, d, name))
    ensures forall e: nat, n, id: nat :: Refers(WithDir(h, d, name), e, n, id) <==>
              Refers(h, e, n, id) || (e == d && n == name && id == |h|)
  {
    var g := WithDir(h, d, name);
    forall e: nat, n, id: nat
      ensures Refers(g, e, n, id) <==> Refers(h, e, n, id) || (e == d && n == name && id == |h|)
    {
      if e < |h| && e != d {
        assert g[e] == h[e];
      }
    }
  }

  /** A new directory is found at its path and nowhere else, and is empty. */
  lemma {:induction false} WithDirWhere(h: Heap, p: Path, d: nat, name: string, q: Path)
    requires Valid(h) && Where(h, p) == Some(d) && name !in h[d]
    ensures Valid(WithDir(h, d, name))
    ensures Where(WithDir(h, d, name), q) == if q == p + [name] then Some(|h|) else Where(h, q)
    ensures FileAt(WithDir(h, d, name), q) == FileAt(h, q)
    decreases |q|
  {
    WithDirRefers(h, d, name);
    if q == [] {
      assert q != p + [name];
    } else {
      WithDirWhere(h, p, d, name, Front(q));
      assert q == Front(q) + [Last(q)];
      if Front(q) == p + [name] {
        BehindNewDir(h, p, d, name, q);
      } else {
        BesideNewDir(h, p, d, name, q);
      }
    }
  }

  /** It is the last key of its parent, and no other order has changed. */
  lemma {:induction false} WithDirOrder(h: Heap, o: Orders, p: Path, d: nat, name: string, q: Path)
    requires Valid(h) && Ordered(h, o) && Where(h, p) == Some(d) && name !in h[d] && Valid(WithDir(h, d, name))
    ensures OrderAt(WithDir(h, d, name), o[d := o[d] + [name]] + [[]], q) ==
            if q == p then Extended(OrderAt(h, o, p), name) else OrderAt(h, o, q)
  {
    assert name !in o[d];
    WithDirWhere(h, p, d, name, q);
    NotThere(h, p, d, name);
    assert |p + [name]| == |p| + 1;
    if q != p && Where(h, q) == Some(d) {
      WhereInjective(h, p, q);
    }
  }

  lemma WithDirOrdered(h: Heap, o: Orders, d: nat, name: string)
    requires d < |h| && name !in h[d] && Ordered(h, o)
    ensures Ordered(WithDir(h, d, name), o[d := o[d] + [name]] + [[]])
  {
    var g, u := WithDir(h, d, name), o[d := o[d] + [name]] + [[]];
    ExtendedLists(o[d], h[d].Keys, name);
    assert h[d][name := Dir(|h|)].Keys == h[d].Keys + {name};
    forall e: nat | e < |g| ensures Lists(u[e], g[e].Keys) {
      assert e < |h| && e != d ==> u[e] == o[e] && g[e] == h[e];
    }
  }

  lemma WithDirNamed(h: Heap, d: nat, name: string)
    requires Named(h) && GoodName(name) && d < |h|
    ensures Named(WithDir(h, d, name))
  {
    var g := WithDir(h, d, name);
    forall e: nat, n | e < |g| && n in g[e] ensures GoodName(n) {
      assert e < |h| && e != d ==> g[e] == h[e];
    }
  }

  lemma WithDirEverywhere(h: Heap, o: Orders, p: Path, d: nat, name: string)
    requires Valid(h) && Ordered(h, o) && Where(h, p) == Some(d) && name !in h[d]
    ensures Valid(WithDir(h, d, name)) && Ordered(WithDir(h, d, name), o[d := o[d] + [name]] + [[]])
    ensures forall q :: Where(WithDir(h, d, name), q) == if q == p + [name] then Some(|h|) else Where(h, q)
    ensures forall q :: FileAt(WithDir(h, d, name), q) == FileAt(h, q)
    ensures forall q :: OrderAt(WithDir(h, d, name), o[d := o[d] + [name]] + [[]], q) ==
                        if q == p then Extended(OrderAt(h, o, p), name) else OrderAt(h, o, q)
  {
    WithDirRefers(h, d, name);
    WithDirOrdered(h, o, d, name);
    var g, u := WithDir(h, d, name), o[d := o[d] + [name]] + [[]];
    forall q: Path
      ensures Where(g, q) == if q == p + [name] then Some(|h|) else Where(h, q)
      ensures FileAt(g, q) == FileAt(h, q)
      ensures OrderAt(g, u, q) == if q == p then Extended(OrderAt(h, o, p), name) else OrderAt(h, o, q)
    {
      WithDirWhere(h, p, d, name, q);
      WithDirOrder(h, o, p, d, name, q);
    }
  }

  lemma BehindNewDir(h: Heap, p: Path, d: nat, name: string, q: Path)
    requires Valid(h) && Where(h, p) == Some(d) && name !in h[d] && Valid(WithDir(h, d, name))
    requires q != [] && Front(q) == p + [name] && Where(WithDir(h, d, name), Front(q)) == Some(|h|)
    ensures q != p + [name] && Where(h, q).None? && FileAt(h, q).None?
    ensures Where(WithDir(h, d, name), q).None? && FileAt(WithDir(h, d, name), q).None?
  {
    NotThere(h, p, d, name);
    assert WithDir(h, d, name)[|h|] == map[];
    assert |q| == |p| + 2;
  }

  lemma {:induction false} BesideNewDir(h: Heap, p: Path, d: nat, name: string, q: Path)
    requires Valid(h) && Where(h, p) == Some(d) && name !in h[d] && Valid(WithDir(h, d, name))
    requires q != [] && Front(q) != p + [name] && Where(WithDir(h, d, name), Front(q)) == Where(h, Front(q))
    ensures Where(WithDir(h, d, name), q) == if q == p + [name] then Some(|h|) else Where(h, q)
    ensures FileAt(WithDir(h, d, name), q) == FileAt(h, q)
  {
    var g := WithDir(h, d, name);
    assert q == Front(q) + [Last(q)];
    if q == p + [name] {
      assert Front(q) == p && Last(q) == name;
      NotThere(h, p, d, name);
    } else {
      if Where(h, Front(q)) == Some(d) {
        WhereInjective(h, p, Front(q));
        assert Last(q) != name;
      } else if Where(h, Front(q)).Some? {
        assert g[Where(h, Front(q)).value] == h[Where(h, Front(q)).value];
      }
      SameChild(h, g, q);
    }
  }

  /** The same is found under a name where the dictionaries agree on it. */
  lemma SameChild(h: Heap, g: Heap, q: Path)
    requires Valid(h) && Valid(g) && q != [] && Where(g, Front(q)) == Where(h, Front(q))
    requires Where(h, Front(q)).Some? ==>
               var d := Where(h, Front(q)).value;
               (Last(q) in g[d] <==> Last(q) in h[d]) && (Last(q) in h[d] ==> g[d][Last(q)] == h[d][Last(q)])
    ensures Where(g, q) == Where(h, q) && FileAt(g, q) == FileAt(h, q)
  {}

  lemma NotThere(h: Heap, p: Path, d: nat, name: string)
    requires Valid(h) && Where(h, p) == Some(d) && !(name in h[d] && h[d][name].Dir?)
    ensures Where(h, p + [name]).None?
  {
    assert Front(p + [name]) == p;
  }

  /* ---------- One more file ---------- */

  function WithFile(h: Heap, d: nat, name: string, symbols: Symbols): Heap
    requires d < |h|
  {
    h[d := h[d][name := File(symbols)]]
  }

  lemma WithFileRefers(h: Heap, d: nat, name: string, symbols: Symbols)
    requires Valid(h) && d < |h| && !(name in h[d] && h[d][name].Dir?)
    ensures Valid(WithFile(h, d, name, symbols))
    ensures forall e: nat, n, id: nat :: Refers(WithFile(h, d, name, symbols), e, n, id) <==> Refers(h, e, n, id)
  {
    var g := WithFile(h, d, name, symbols);
    forall e: nat, n, id: nat ensures Refers(g, e, n, id) <==> Refers(h, e, n, id) {
      if e < |h| && e != d {
        assert g[e] == h[e];
      }
    }
  }

  /** A file is found at its path, and all else is where it was. */
  lemma {:induction false} WithFileWhere(h: Heap, p: Path, d: nat, name: string, symbols: Symbols, q: Path)
    requires Valid(h) && Where(h, p) == Some(d) && !(name in h[d] && h[d][name].Dir?)
    ensures Valid(WithFile(h, d, name, symbols))
    ensures Where(WithFile(h, d, name, symbols), q) == Where(h, q)
    ensures FileAt(WithFile(h, d, name, symbols), q) == if q == p + [name] then Some(symbols) else FileAt(h, q)
    decreases |q|
  {
    WithFileRefers(h, d, name, symbols);
    if q == [] {
      assert q != p + [name];
    } else {
      WithFileWhere(h, p, d, name, symbols, Front(q));
      BesideFile(h, p, d, name, symbols, q);
    }
  }

  lemma WithFileOrder(h: Heap, o: Orders, p: Path, d: nat, name: string, symbols: Symbols, q: Path)
    requires Valid(h) && Ordered(h, o) && Where(h, p) == Some(d) && !(name in h[d] && h[d][name].Dir?)
    requires Valid(WithFile(h, d, name, symbols))
    ensures OrderAt(WithFile(h, d, name, symbols), o[d := Extended(o[d], name)], q) ==
            if q == p then Extended(OrderAt(h, o, p), name) else OrderAt(h, o, q)
  {
    WithFileWhere(h, p, d, name, symbols, q);
    if q != p && Where(h, q) == Some(d) {
      WhereInjective(h, p, q);
    }
  }

  lemma WithFileOrdered(h: Heap, o: Orders, d: nat, name: string, symbols: Symbols)
    requires d < |h| && Ordered(h, o)
    ensures Ordered(WithFile(h, d, name, symbols), o[d := Extended(o[d], name)])
  {
    var g, u := WithFile(h, d, name, symbols), o[d := Extended(o[d], name)];
    ExtendedLists(o[d], h[d].Keys, name);
    assert h[d][name := File(symbols)].Keys == h[d].Keys + {name};
    forall e: nat | e < |g| ensures Lists(u[e], g[e].Keys) {
      assert e != d ==> u[e] == o[e] && g[e] == h[e];
    }
  }

  lemma {:induction false} BesideFile(h: Heap, p: Path, d: nat, name: string, symbols: Symbols, q: Path)
    requires Valid(h) && Where(h, p) == Some(d) && !(name in h[d] && h[d][name].Dir?)
    requires Valid(WithFile(h, d, name, symbols)) && q != []
    requires Where(WithFile(h, d, name, symbols), Front(q)) == Where(h, Front(q))
    ensures Where(WithFile(h, d, name, symbols), q) == Where(h, q)
    ensures FileAt(WithFile(h, d, name, symbols), q) == if q == p + [name] then Some(symbols) else FileAt(h, q)
  {
    assert q == Front(q) + [Last(q)];
    if Where(h, Front(q)) == Some(d) {
      WhereInjective(h, p, Front(q));
    } else if Where(h, Front(q)).Some? {
      assert WithFile(h, d, name, symbols)[Where(h, Front(q)).value] == h[Where(h, Front(q)).value];
    }
    if q == p + [name] {
      assert Front(q) == p;
    }
  }

  lemma FrontProper(parts: Path)
    requires parts != []
    ensures !(parts <= Front(parts))
  {}

  /** A file put where no directory is. */
  lemma {:induction false} WithFileEverywhere(h: Heap, parts: Path, d: nat, symbols: Symbols)
    requires Valid(h) && parts != [] && Where(h, Front(parts)) == Some(d) && Where(h, parts).None?
    ensures Valid(WithFile(h, d, Last(parts), symbols))
    ensures forall q :: Where(WithFile(h, d, Last(parts), symbols), q) == Where(h, q)
    ensures forall q ::
              FileAt(WithFile(h, d, Last(parts), symbols), q) == if q == parts then Some(symbols) else FileAt(h, q)
  {
    var name := Last(parts);
    assert parts == Front(parts) + [name];
    WithFileRefers(h, d, name, symbols);
    forall q: Path
      ensures Where(WithFile(h, d, name, symbols), q) == Where(h, q)
      ensures FileAt(WithFile(h, d, name, symbols), q) == if q == parts then Some(symbols) else FileAt(h, q)
    {
      WithFileWhere(h, Front(parts), d, name, symbols, q);
    }
  }

  /* ---------- build_tree_structure ---------- */

  /** No file is listed twice, and none lies inside another, as in any working tree. */
  ghost predicate Separate(files: seq<(Path, Symbols)>) {
    (forall i :: 0 <= i < |files| ==> files[i].0 != []) &&
    (forall i, j :: 0 <= i < |files| && 0 <= j < |files| && files[i].0 <= files[j].0 ==> i == j) &&
    forall i, n :: 0 <= i < |files| && n in files[i].0 ==> GoodName(n)
  }

  /** The tree holds exactly the first `n` files, and directories only where a file needs them. */
  ghost predicate Holds(h: Heap, files: seq<(Path, Symbols)>, n: nat)
    requires Valid(h) && n <= |files|
  {
    (forall i :: 0 <= i < n ==> FileAt(h, files[i].0) == Some(files[i].1)) &&
    (forall q :: FileAt(h, q).Some? ==> exists i :: 0 <= i < n && files[i].0 == q) &&
    forall q :: Where(h, q).Some? <==> q == [] || exists i :: 0 <= i < n && q < files[i].0
  }

  /** The names directly below `q`, in the order in which the files bring them up. */
  function Children(files: seq<(Path, Symbols)>, q: Path): seq<string> {
    if files == [] then []
    else
      var l, p := Children(files[..|files| - 1], q), files[|files| - 1].0;
      if q < p then Extended(l, p[|q|]) else l
  }

  /** A tree, with the order of its keys, that was grown from some files one after the other. */
  ghost predicate Grown(h: Heap, o: Orders, files: seq<(Path, Symbols)>) {
    Proper(h, o) && Holds(h, files, |files|) && Follows(h, o, files)
  }

  /** Everywhere the keys come in the order in which the files bring them up. */
  ghost predicate Follows(h: Heap, o: Orders, files: seq<(Path, Symbols)>)
    requires Valid(h) && |o| == |h|
  {
    forall q :: OrderAt(h, o, q) == Children(files, q)
  }

  class Tree {
    var dicts: Heap
    var order: Orders

    ghost predicate Sound()
      reads this
    {
      Proper(dicts, order)
    }

    constructor ()
      ensures Sound()
      ensures forall q ::
                FileAt(dicts, q).None? && (Where(dicts, q).Some? <==> q == []) && OrderAt(dicts, order, q) == []
    {
      dicts := [map[]];
      order := [[]];
      new;
      forall q: Path ensures FileAt(dicts, q).None? && (Where(dicts, q).Some? <==> q == []) {
        Bare(dicts, q);
      }
    }

    /** One step of the walk, from the directory at `p` into the one called `name`. */
    method Step(ghost p: Path, current: nat, name: string) returns (next: nat)
      requires Sound() && Where(dicts, p) == Some(current) && FileAt(dicts, p + [name]).None? && GoodName(name)
      modifies this
      ensures Sound() && Where(dicts, p + [name]) == Some(next)
      ensures forall q :: FileAt(dicts, q) == FileAt(old(dicts), q)
      ensures forall q :: Where(dicts, q).Some? <==> Where(old(dicts), q).Some? || q == p + [name]
      ensures forall q :: OrderAt(dicts, order, q) ==
                          if q == p then Extended(OrderAt(old(dicts), old(order), p), name)
                          else OrderAt(old(dicts), old(order), q)
    {
      ghost var h := dicts;
      assert Front(p + [name]) == p && Last(p + [name]) == name;
      if name !in dicts[current] {
        WithDirEverywhere(dicts, order, p, current, name);
        WithDirNamed(dicts, current, name);
        dicts := WithDir(dicts, current, name);
        order := order[current := order[current] + [name]] + [[]];
        assert dicts[current][name] == Dir(|h|);
      }
      next := dicts[current][name].id;
    }

    /** The walk to the parent directory, creating what is missing. */
    method Enter(parts: Path) returns (current: nat)
      requires Sound() && forall n :: n in parts ==> GoodName(n)
      requires forall k :: 0 < k <= |parts| ==> FileAt(dicts, parts[..k]).None?
      modifies this
      ensures Sound() && Where(dicts, parts) == Some(current)
      ensures forall q :: FileAt(dicts, q) == FileAt(old(dicts), q)
      ensures forall q :: Where(dicts, q).Some? <==> Where(old(dicts), q).Some? || q <= parts
      ensures forall q :: OrderAt(dicts, order, q) == Walked(OrderAt(old(dicts), old(order), q), parts, q)
    {
      current := 0;
      assert parts[..0] == [];
      for i := 0 to |parts|
        invariant Sound() && Where(dicts, parts[..i]) == Some(current)
        invariant forall q :: FileAt(dicts, q) == FileAt(old(dicts), q)
        invariant forall q :: Where(dicts, q).Some? <==> Where(old(dicts), q).Some? || q <= parts[..i]
        invariant forall q :: OrderAt(dicts, order, q) == Walked(OrderAt(old(dicts), old(order), q), parts[..i], q)
      {
        assert parts[..i + 1] == parts[..i] + [parts[i]];
        assert FileAt(dicts, parts[..i + 1]).None?;
        current := Step(parts[..i], current, parts[i]);
        forall q: Path ensures Where(dicts, q).Some? <==> Where(old(dicts), q).Some? || q <= parts[..i + 1] {
          OneLonger(parts, i, q);
        }
        forall q: Path
          ensures OrderAt(dicts, order, q) == Walked(OrderAt(old(dicts), old(order), q), parts[..i + 1], q)
        {
          WalkedOn(OrderAt(old(dicts), old(order), q), parts, i, q);
        }
      }
      assert parts[..|parts|] == parts;
    }

    /** One file put into the tree. */
    method Add(parts: Path, symbols: Symbols)
      requires Sound() && parts != [] && (forall n :: n in parts ==> GoodName(n))
      requires Where(dicts, parts).None? && forall k :: 0 < k < |parts| ==> FileAt(dicts, parts[..k]).None?
      modifies this
      ensures Sound()
      ensures forall q :: FileAt(dicts, q) == if q == parts then Some(symbols) else FileAt(old(dicts), q)
      ensures forall q :: Where(dicts, q).Some? <==> Where(old(dicts), q).Some? || q < parts
      ensures forall q :: OrderAt(dicts, order, q) == Walked(OrderAt(old(dicts), old(order), q), parts, q)
    {
      assert forall k :: 0 < k <= |Front(parts)| ==> Front(parts)[..k] == parts[..k];
      var current := Enter(Front(parts));
      FrontProper(parts);
      WithFileEverywhere(dicts, parts, current, symbols);
      WithFileOrdered(dicts, order, current, Last(parts), symbols);
      ghost var h, o := dicts, order;
      dicts := WithFile(dicts, current, Last(parts), symbols);
      order := order[current := Extended(order[current], Last(parts))];
      forall q: Path ensures OrderAt(dicts, order, q) == Walked(OrderAt(old(dicts), old(order), q), parts, q) {
        WithFileOrder(h, o, Front(parts), current, Last(parts), symbols, q);
        WalkedLast(OrderAt(old(dicts), old(order), q), parts, q);
      }
    }

    /** `build_tree_structure` */
    method Build(files: seq<(Path, Symbols)>)
      requires Separate(files) && Sound()
      requires forall q ::
                 FileAt(dicts, q).None? && (Where(dicts, q).Some? <==> q == []) && OrderAt(dicts, order, q) == []
      modifies this
      ensures Grown(dicts, order, files)
    {
      for i := 0 to |files|
        invariant Sound() && Holds(dicts, files, i)
        invariant forall q :: OrderAt(dicts, order, q) == Children(files[..i], q)
      {
        ghost var h, o := dicts, order;
        HasRoom(h, files, i);
        Add(files[i].0, files[i].1);
        HoldsMore(h, dicts, files, i);
        forall q: Path ensures OrderAt(dicts, order, q) == Children(files[..i + 1], q) {
          OneMoreFile(files, i, q);
        }
      }
      assert files[..|files|] == files;
    }
  }

  lemma OneMoreFile(files: seq<(Path, Symbols)>, i: nat, q: Path)
    requires i < |files|
    ensures Children(files[..i + 1], q) == Walked(Children(files[..i], q), files[i].0, q)
  {
    assert files[..i + 1][..i] == files[..i];
  }

  /** What a walk along `parts` makes of the keys at `q`. */
  function Walked(l: seq<string>, parts: Path, q: Path): seq<string> {
    if q < parts then Extended(l, parts[|q|]) else l
  }

  lemma WalkedOn(l: seq<string>, parts: Path, i: nat, q: Path)
    requires i < |parts|
    ensures Walked(l, parts[..i + 1], q) ==
            if q == parts[..i] then Extended(Walked(l, parts[..i], q), parts[i]) else Walked(l, parts[..i], q)
  {
    OneLonger(parts, i, q);
  }

  lemma WalkedLast(l: seq<string>, parts: Path, q: Path)
    requires parts != []
    ensures Walked(l, parts, q) ==
            if q == Front(parts) then Extended(Walked(l, Front(parts), q), Last(parts)) else Walked(l, Front(parts), q)
  {
    WalkedOn(l, parts, |parts| - 1, q);
    assert parts[..|parts|] == parts;
  }

  lemma HasRoom(h: Heap, files: seq<(Path, Symbols)>, i: nat)
    requires Separate(files) && i < |files| && Valid(h) && Holds(h, files, i)
    ensures files[i].0 != [] && Where(h, files[i].0).None?
    ensures forall k :: 0 < k < |files[i].0| ==> FileAt(h, files[i].0[..k]).None?
  {
    var p := files[i].0;
    assert forall j :: 0 <= j < i ==> !(p <= files[j].0);
    forall k | 0 < k < |p| ensures FileAt(h, p[..k]).None? {
      assert p[..k] <= p;
    }
  }

  lemma {:induction false} HoldsMore(h: Heap, g: Heap, files: seq<(Path, Symbols)>, i: nat)
    requires Separate(files) && i < |files| && Valid(h) && Holds(h, files, i) && Valid(g)
    requires forall q :: FileAt(g, q) == if q == files[i].0 then Some(files[i].1) else FileAt(h, q)
    requires forall q :: Where(g, q).Some? <==> Where(h, q).Some? || q < files[i].0
    ensures Holds(g, files, i + 1)
  {
    assert forall j :: 0 <= j < i ==> !(files[j].0 <= files[i].0);
  }

  lemma {:induction false} Bare(h: Heap, q: Path)
    requires Valid(h) && h == [map[]]
    ensures FileAt(h, q).None? && (Where(h, q).Some? <==> q == [])
  {
    if q != [] {
      Bare(h, Front(q));
    }
  }

  lemma OneLonger(parts: Path, i: nat, q: Path)
    requires i < |parts|
    ensures q <= parts[..i + 1] <==> q <= parts[..i] || q == parts[..i + 1]
  {}
}
