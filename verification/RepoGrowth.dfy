/** For every list of files there is a tree grown from it, and it knows the order of the files. */
module RepoGrowth {
  import opened Text
  import opened RepoTree

  /* ---------- Trees exist ---------- */

  /** The second tree is the first with the directories on the way along `parts`. */
  ghost predicate Walks(h: Heap, o: Orders, g: Heap, u: Orders, parts: Path)
    requires Proper(h, o) && Proper(g, u)
  {
    (forall q :: FileAt(g, q) == FileAt(h, q)) &&
    (forall q :: Where(g, q).Some? <==> Where(h, q).Some? || q <= parts) &&
    forall q :: OrderAt(g, u, q) == Walked(OrderAt(h, o, q), parts, q)
  }

  /** The second tree is the first with one more file. */
  ghost predicate Adds(h: Heap, o: Orders, g: Heap, u: Orders, parts: Path, symbols: Symbols)
    requires Proper(h, o) && Proper(g, u)
  {
    (forall q :: FileAt(g, q) == if q == parts then Some(symbols) else FileAt(h, q)) &&
    (forall q :: Where(g, q).Some? <==> Where(h, q).Some? || q < parts) &&
    forall q :: OrderAt(g, u, q) == Walked(OrderAt(h, o, q), parts, q)
  }

  lemma {:induction false} CanEnter(h: Heap, o: Orders, parts: Path) returns (g: Heap, u: Orders)
    requires Proper(h, o) && forall n :: n in parts ==> GoodName(n)
    requires forall k :: 0 < k <= |parts| ==> FileAt(h, parts[..k]).None?
    ensures Proper(g, u) && Walks(h, o, g, u, parts)
    decreases |parts|
  {
    if parts == [] {
      g, u := h, o;
    } else {
      assert parts[..|parts|] == parts && FileAt(h, parts).None?;
      assert forall k :: 0 < k <= |Front(parts)| ==> Front(parts)[..k] == parts[..k];
      g, u := CanEnter(h, o, Front(parts));
      g, u := CanStep(h, o, g, u, parts);
    }
  }

  lemma CanStep(h: Heap, o: Orders, g: Heap, u: Orders, parts: Path) returns (f: Heap, v: Orders)
    requires Proper(h, o) && Proper(g, u) && parts != [] && GoodName(Last(parts)) && FileAt(h, parts).None?
    requires Walks(h, o, g, u, Front(parts))
    ensures Proper(f, v) && Walks(h, o, f, v, parts)
  {
    var p, name := Front(parts), Last(parts);
    assert parts == p + [name] && Where(g, p).Some?;
    var d := Where(g, p).value;
    f, v := g, u;
    if name !in g[d] {
      WithDirEverywhere(g, u, p, d, name);
      WithDirNamed(g, d, name);
      f, v := WithDir(g, d, name), u[d := u[d] + [name]] + [[]];
    } else {
      assert FileAt(g, parts).None?;
    }
    forall q: Path ensures Where(f, q).Some? <==> Where(h, q).Some? || q <= parts {
      OneShorter(parts, q);
    }
    forall q: Path ensures OrderAt(f, v, q) == Walked(OrderAt(h, o, q), parts, q) {
      WalkedLast(OrderAt(h, o, q), parts, q);
    }
  }

  lemma OneShorter(parts: Path, q: Path)
    requires parts != []
    ensures q <= parts <==> q <= Front(parts) || q == parts
    ensures q < parts <==> q <= Front(parts)
  {
    OneLonger(parts, |parts| - 1, q);
    assert parts[..|parts|] == parts;
  }

  lemma CanAdd(h: Heap, o: Orders, parts: Path, symbols: Symbols) returns (g: Heap, u: Orders)
    requires Proper(h, o) && parts != [] && (forall n :: n in parts ==> GoodName(n))
    requires Where(h, parts).None? && forall k :: 0 < k < |parts| ==> FileAt(h, parts[..k]).None?
    ensures Proper(g, u) && Adds(h, o, g, u, parts, symbols)
  {
    assert forall k :: 0 < k <= |Front(parts)| ==> Front(parts)[..k] == parts[..k];
    var f, v := CanEnter(h, o, Front(parts));
    g, u := CanPut(h, o, f, v, parts, symbols);
  }

  lemma CanPut(h: Heap, o: Orders, f: Heap, v: Orders, parts: Path, symbols: Symbols)
    returns (g: Heap, u: Orders)
    requires Proper(h, o) && Proper(f, v) && parts != [] && GoodName(Last(parts)) && Where(h, parts).None?
    requires Walks(h, o, f, v, Front(parts))
    ensures Proper(g, u) && Adds(h, o, g, u, parts, symbols)
  {
    var p, name := Front(parts), Last(parts);
    assert Where(f, p).Some?;
    var d := Where(f, p).value;
    OneShorter(parts, parts);
    WithFileEverywhere(f, parts, d, symbols);
    WithFileOrdered(f, v, d, name, symbols);
    g, u := WithFile(f, d, name, symbols), v[d := Extended(v[d], name)];
    forall q: Path ensures Where(g, q).Some? <==> Where(h, q).Some? || q < parts {
      OneShorter(parts, q);
    }
    forall q: Path ensures OrderAt(g, u, q) == Walked(OrderAt(h, o, q), parts, q) {
      WithFileOrder(f, v, p, d, name, symbols, q);
      WalkedLast(OrderAt(h, o, q), parts, q);
    }
    assert Named(g);
  }

  /** For every list of files there is a tree grown from it. */
  lemma {:induction false} CanGrow(files: seq<(Path, Symbols)>) returns (h: Heap, o: Orders)
    requires Separate(files)
    ensures Grown(h, o, files)
    decreases |files|
  {
    if files == [] {
      h, o := [map[]], [[]];
      BareGrown(h, o);
    } else {
      SeparateFewer(files, |files| - 1);
      h, o := CanGrow(files[..|files| - 1]);
      h, o := CanGrowOn(h, o, files);
    }
  }

  lemma CanGrowOn(f: Heap, v: Orders, files: seq<(Path, Symbols)>) returns (h: Heap, o: Orders)
    requires Separate(files) && files != [] && Grown(f, v, files[..|files| - 1])
    ensures Grown(h, o, files)
  {
    HoldsFewer(f, files, |files| - 1);
    h, o := CanAddNext(f, v, files, |files| - 1);
    GrownMore(f, v, h, o, files);
  }

  lemma CanAddNext(f: Heap, v: Orders, files: seq<(Path, Symbols)>, n: nat)
    returns (h: Heap, o: Orders)
    requires Separate(files) && n < |files| && Proper(f, v) && Holds(f, files, n)
    ensures Proper(h, o) && Adds(f, v, h, o, files[n].0, files[n].1)
  {
    HasRoom(f, files, n);
    NamesGood(files, n);
    h, o := CanAdd(f, v, files[n].0, files[n].1);
  }

  lemma BareGrown(h: Heap, o: Orders)
    requires h == [map[]] && o == [[]]
    ensures Grown(h, o, [])
  {
    forall q: Path ensures FileAt(h, q).None? && (Where(h, q).Some? <==> q == []) && OrderAt(h, o, q) == [] {
      Bare(h, q);
    }
  }

  lemma SeparateFewer(files: seq<(Path, Symbols)>, n: nat)
    requires Separate(files) && n <= |files|
    ensures Separate(files[..n])
  {}

  lemma NamesGood(files: seq<(Path, Symbols)>, n: nat)
    requires Separate(files) && n < |files|
    ensures forall m :: m in files[n].0 ==> GoodName(m)
  {}

  lemma HoldsFewer(h: Heap, files: seq<(Path, Symbols)>, n: nat)
    requires Valid(h) && n <= |files| && Holds(h, files[..n], n)
    ensures Holds(h, files, n)
  {
    var before := files[..n];
    forall i | 0 <= i < n ensures FileAt(h, files[i].0) == Some(files[i].1) {
      assert before[i] == files[i];
    }
    forall q | FileAt(h, q).Some? ensures exists i :: 0 <= i < n && files[i].0 == q {
      var i :| 0 <= i < n && before[i].0 == q;
      assert files[i].0 == q;
    }
    forall q ensures Where(h, q).Some? <==> q == [] || exists i :: 0 <= i < n && q < files[i].0 {
      HeldBelow(h, files, n, q);
    }
  }

  lemma HeldBelow(h: Heap, files: seq<(Path, Symbols)>, n: nat, q: Path)
    requires Valid(h) && n <= |files| && Holds(h, files[..n], n)
    ensures Where(h, q).Some? <==> q == [] || exists i :: 0 <= i < n && q < files[i].0
  {
    var before := files[..n];
    if i :| 0 <= i < n && q < before[i].0 {
      assert q < files[i].0;
    }
    if i :| 0 <= i < n && q < files[i].0 {
      assert q < before[i].0;
    }
  }

  lemma GrownMore(f: Heap, v: Orders, h: Heap, o: Orders, files: seq<(Path, Symbols)>)
    requires Separate(files) && files != [] && Grown(f, v, files[..|files| - 1]) && Proper(h, o)
    requires Adds(f, v, h, o, files[|files| - 1].0, files[|files| - 1].1)
    ensures Grown(h, o, files)
  {
    var n := |files| - 1;
    HoldsFewer(f, files, n);
    HoldsMore(f, h, files, n);
    assert files[..n + 1] == files;
    forall q: Path ensures OrderAt(h, o, q) == Children(files, q) {
      OneMoreFile(files, n, q);
    }
  }
}
