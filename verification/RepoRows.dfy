/** What the printed map says of every file: its symbols, its place in the listing, and the branches it
    hangs from. */
module RepoRows {
  import opened Text
  import opened Order
  import opened RepoTree
  import opened RepoListing
  import opened RepoMap
  import opened RepoSymbols

  /* ---------- What a row should say ---------- */

  /** The name at level `k` of a path is the greatest of its directory. */
  ghost predicate LastIn(h: Heap, x: Path, k: nat)
    requires Valid(h) && k < |x|
  {
    Where(h, x[..k]).Some? &&
    forall n :: n in h[Where(h, x[..k]).value] ==> n == x[k] || Before(n, x[k])
  }

  /** The levels of a path at which it takes the last branch. */
  ghost predicate Placed(h: Heap, x: Path, lasts: seq<bool>)
    requires Valid(h)
  {
    |lasts| == |x| && forall k :: 0 <= k < |x| ==> (lasts[k] <==> LastIn(h, x, k))
  }

  /** The symbols to be printed at a path: those of its file, or those a directory poses with. */
  function SymbolsAt(h: Heap, o: Orders, x: Path): Symbols
    requires Valid(h) && Ordered(h, o)
  {
    if FileAt(h, x).Some? then FileAt(h, x).value
    else if Where(h, x).Some? then Posing(h, o, Where(h, x).value)
    else Symbols([], [], None)
  }

  ghost predicate Right(h: Heap, o: Orders, r: Row)
    requires Valid(h) && Ordered(h, o)
  {
    Placed(h, r.path, r.lasts) && r.notes == NotesFor(SymbolsAt(h, o, r.path))
  }

  ghost predicate AllRight(h: Heap, o: Orders, rows: seq<Row>)
    requires Valid(h) && Ordered(h, o)
  {
    forall r :: r in rows ==> Right(h, o, r)
  }

  function PathsOf(rows: seq<Row>): (r: seq<Path>)
    ensures |r| == |rows| && forall i :: 0 <= i < |r| ==> r[i] == rows[i].path
  {
    seq(|rows|, i requires 0 <= i < |rows| => rows[i].path)
  }

  lemma PlacedMore(h: Heap, p: Path, lasts: seq<bool>, name: string, last: bool)
    requires Valid(h) && Placed(h, p, lasts) && (last <==> LastIn(h, p + [name], |p|))
    ensures Placed(h, p + [name], lasts + [last])
  {
    var x := p + [name];
    forall k | 0 <= k < |x| ensures (lasts + [last])[k] <==> LastIn(h, x, k) {
      if k < |p| {
        assert x[..k] == p[..k] && x[k] == p[k];
        assert lasts[k] <==> LastIn(h, p, k);
      }
    }
  }

  /* ---------- Reading the tree ---------- */

  lemma {:induction false} RowsOfLines(h: Heap, o: Orders, d: nat, p: Path, lasts: seq<bool>, dir: Path)
    requires Proper(h, o) && Where(h, p) == Some(d) && Placed(h, p, lasts) && p <= dir
    ensures var lines := Lines(h, o, d, Lead(lasts));
            PathsOf(ReadRows(lines, dir)) == Paths(h, d, p) && AllRight(h, o, ReadRows(lines, dir)) &&
            p <= RowDir(lines, dir) && Quiet(lines)
    decreases |h| - d, 2, 0
  {
    var names := SortedOf(h[d].Keys);
    assert names == [] || Tail(h, d, names);
    RowsOfItems(h, o, d, names, p, lasts, dir);
  }

  /** The names that are left, in order: all others come before. */
  ghost predicate Tail(h: Heap, d: nat, names: seq<string>)
    requires d < |h|
  {
    (forall n :: n in names ==> n in h[d]) && (forall i, j :: 0 <= i < j < |names| ==> Before(names[i], names[j])) &&
    forall n, m :: n in h[d] && n !in names && m in names ==> Before(n, m)
  }

  lemma TailFirst(h: Heap, d: nat, p: Path, names: seq<string>)
    requires Valid(h) && Where(h, p) == Some(d) && names != [] && Tail(h, d, names)
    ensures |names| == 1 <==> LastIn(h, p + [names[0]], |p|)
    ensures Tail(h, d, names[1..])
  {
    var x := p + [names[0]];
    assert x[..|p|] == p && x[|p|] == names[0] && names[0] in names && names == [names[0]] + names[1..];
    if |names| == 1 {
      forall n | n in h[d] ensures n == names[0] || Before(n, names[0]) {}
    } else {
      assert names[1] in names && Before(names[0], names[1]);
      BeforeTotal(names[0], names[0]);
      if Before(names[1], names[0]) {
        BeforeChains(names[0], names[1], names[0]);
      }
    }
    forall n, m | n in h[d] && n !in names[1..] && m in names[1..] ensures Before(n, m) {
      var j :| 0 <= j < |names[1..]| && names[1..][j] == m;
      assert names[j + 1] == m;
    }
  }

  lemma {:induction false} RowsOfItems(h: Heap, o: Orders, d: nat, names: seq<string>, p: Path, lasts: seq<bool>,
                                       dir: Path)
    requires Proper(h, o) && Where(h, p) == Some(d) && Placed(h, p, lasts) && p <= dir && Tail(h, d, names)
    ensures var lines := ItemLines(h, o, d, names, Lead(lasts));
            PathsOf(ReadRows(lines, dir)) == ItemPaths(h, d, names, p) && AllRight(h, o, ReadRows(lines, dir)) &&
            p <= RowDir(lines, dir) && Quiet(lines)
    decreases |h| - d, 1, |names|
  {
    if names != [] {
      var name, last := names[0], |names| == 1;
      assert name in names;
      TailFirst(h, d, p, names);
      var a, b := EntryLines(h, o, d, name, last, Lead(lasts)), ItemLines(h, o, d, names[1..], Lead(lasts));
      RowsOfEntry(h, o, d, name, last, p, lasts, dir);
      RowsOfItems(h, o, d, names[1..], p, lasts, RowDir(a, dir));
      RowsConcat(a, b, dir);
      QuietFirst(a, b);
      JoinedRows(h, o, ReadRows(a, dir), ReadRows(b, RowDir(a, dir)));
    }
  }

  lemma QuietFirst(a: seq<string>, b: seq<string>)
    requires a != [] && Quiet(a)
    ensures Quiet(a + b)
  {
    assert (a + b)[0] == a[0];
  }

  lemma JoinedRows(h: Heap, o: Orders, a: seq<Row>, b: seq<Row>)
    requires Valid(h) && Ordered(h, o) && AllRight(h, o, a) && AllRight(h, o, b)
    ensures AllRight(h, o, a + b) && PathsOf(a + b) == PathsOf(a) + PathsOf(b)
  {}

  lemma {:induction false} RowsOfEntry(h: Heap, o: Orders, d: nat, name: string, last: bool, p: Path, lasts: seq<bool>,
                                       dir: Path)
    requires Proper(h, o) && Where(h, p) == Some(d) && name in h[d] && Placed(h, p, lasts) && p <= dir
    requires last <==> LastIn(h, p + [name], |p|)
    ensures var lines := EntryLines(h, o, d, name, last, Lead(lasts));
            PathsOf(ReadRows(lines, dir)) == EntryPaths(h, d, name, p) && AllRight(h, o, ReadRows(lines, dir)) &&
            p <= RowDir(lines, dir) && lines != [] && Quiet(lines)
    decreases |h| - d, 0, 0
  {
    NameOf(h, d, name);
    ChildAt(h, p, d, name);
    PlacedMore(h, p, lasts, name, last);
    match h[d][name]
    case File(s) =>
      assert Front(p + [name]) == p && Last(p + [name]) == name;
      OneRow(h, o, name, s, lasts, last, p, dir);
    case Dir(id) =>
      assert Refers(h, d, name, id);
      if TakenForFile(h[id]) {
        OneRow(h, o, name, Posing(h, o, id), lasts, last, p, dir);
      } else {
        RowsOfDir(h, o, id, name, last, p, lasts, dir);
      }
  }

  lemma {:induction false} OneRow(h: Heap, o: Orders, name: string, s: Symbols, lasts: seq<bool>, last: bool, p: Path,
                                  dir: Path)
    requires Valid(h) && Ordered(h, o) && GoodName(name) && Placed(h, p, lasts) && p <= dir
    requires Placed(h, p + [name], lasts + [last]) && SymbolsAt(h, o, p + [name]) == s
    ensures var lines := FileLines(name, s, last, Lead(lasts));
            PathsOf(ReadRows(lines, dir)) == [p + [name]] && AllRight(h, o, ReadRows(lines, dir)) &&
            p <= RowDir(lines, dir) && lines != [] && Quiet(lines)
  {
    FileRow(name, s, lasts, last, p, dir);
    NamedHere(lasts, last, name);
    HeadIsQuiet(Lead(lasts) + (Connector(last) + name), SymbolLines(Lead(lasts) + Pad(last), s));
  }

  lemma {:induction false} RowsOfDir(h: Heap, o: Orders, id: nat, name: string, last: bool, p: Path, lasts: seq<bool>,
                                     dir: Path)
    requires Proper(h, o) && Where(h, p + [name]) == Some(id) && GoodName(name) && |lasts| == |p| && p <= dir
    requires Placed(h, p + [name], lasts + [last])
    ensures var head := Lead(lasts) + (Connector(last) + (name + "/"));
            var lines := [head] + InnerLines(h, o, id, Lead(lasts) + Pad(last));
            PathsOf(ReadRows(lines, dir)) == Paths(h, id, p + [name]) && AllRight(h, o, ReadRows(lines, dir)) &&
            p <= RowDir(lines, dir) && Quiet(lines)
    decreases |h| - id, 3, 0
  {
    var inner := InnerLines(h, o, id, Lead(lasts) + Pad(last));
    LeadMore(lasts, last);
    DirHead(name, inner, lasts, last, p, dir);
    if h[id] == map[] {
      NoRows([""], p + [name]);
      EmptyPaths(h, id, p + [name]);
    } else {
      RowsOfLines(h, o, id, p + [name], lasts + [last], p + [name]);
    }
    assert p <= p + [name];
  }

  /** The line of a directory moves the reader into it. */
  lemma DirHead(name: string, inner: seq<string>, lasts: seq<bool>, last: bool, p: Path, dir: Path)
    requires GoodName(name) && |lasts| == |p| && p <= dir
    ensures var lines := [Lead(lasts) + (Connector(last) + (name + "/"))] + inner;
            ReadRows(lines, dir) == ReadRows(inner, p + [name]) && RowDir(lines, dir) == RowDir(inner, p + [name]) &&
            Quiet(lines)
  {
    var head := Lead(lasts) + (Connector(last) + (name + "/"));
    NamedHere(lasts, last, name);
    HeadIsQuiet(head, inner);
    assert dir[..|p|] == p && ([head] + inner)[1..] == inner;
  }

  /* ---------- The order of the listing ---------- */

  /** Where two paths part, the first takes the smaller name. */
  ghost predicate PathBefore(x: Path, y: Path) {
    exists k :: PartsAt(x, y, k)
  }

  predicate PartsAt(x: Path, y: Path, k: nat) {
    k < |x| && k < |y| && x[..k] == y[..k] && Before(x[k], y[k])
  }

  ghost predicate InOrder(paths: seq<Path>) {
    forall i, j :: 0 <= i < j < |paths| ==> PathBefore(paths[i], paths[j])
  }

  /** The paths are listed in order. */
  lemma {:induction false} PathsInOrder(h: Heap, d: nat, p: Path)
    requires Valid(h) && d < |h|
    ensures InOrder(Paths(h, d, p))
    decreases |h| - d, 2, 0
  {
    ItemsInOrder(h, d, SortedOf(h[d].Keys), p);
  }

  lemma {:induction false} ItemsInOrder(h: Heap, d: nat, names: seq<string>, p: Path)
    requires Valid(h) && d < |h| && (forall n :: n in names ==> n in h[d])
    requires forall i, j :: 0 <= i < j < |names| ==> Before(names[i], names[j])
    ensures InOrder(ItemPaths(h, d, names, p))
    ensures forall x :: x in ItemPaths(h, d, names, p) ==> p < x && x[|p|] in names
    decreases |h| - d, 1, |names|
  {
    if names != [] {
      var a, b := EntryPaths(h, d, names[0], p), ItemPaths(h, d, names[1..], p);
      assert names[0] in names && names == [names[0]] + names[1..];
      EntryInOrder(h, d, names[0], p);
      ItemsInOrder(h, d, names[1..], p);
      forall x, y | x in a && y in b ensures PathBefore(x, y) {
        Apart(p, x, y, names);
      }
      JoinOrders(a, b);
    }
  }

  lemma Apart(p: Path, x: Path, y: Path, names: seq<string>)
    requires names != [] && p < x && x[|p|] == names[0] && p < y && y[|p|] in names[1..]
    requires forall i, j :: 0 <= i < j < |names| ==> Before(names[i], names[j])
    ensures PathBefore(x, y)
  {
    var j :| 0 <= j < |names[1..]| && names[1..][j] == y[|p|];
    assert names[j + 1] == y[|p|] && Before(names[0], names[j + 1]);
    assert x[..|p|] == p && y[..|p|] == p;
    assert PartsAt(x, y, |p|);
  }

  lemma JoinOrders(a: seq<Path>, b: seq<Path>)
    requires InOrder(a) && InOrder(b) && forall x, y :: x in a && y in b ==> PathBefore(x, y)
    ensures InOrder(a + b)
  {
    forall i, j | 0 <= i < j < |a + b| ensures PathBefore((a + b)[i], (a + b)[j]) {
      if i < |a| <= j {
        assert a[i] in a && b[j - |a|] in b;
      }
    }
  }

  lemma {:induction false} EntryInOrder(h: Heap, d: nat, name: string, p: Path)
    requires Valid(h) && d < |h| && name in h[d]
    ensures InOrder(EntryPaths(h, d, name, p))
    ensures forall x :: x in EntryPaths(h, d, name, p) ==> p < x && x[|p|] == name
    decreases |h| - d, 0, 0
  {
    if h[d][name].Dir? {
      assert Refers(h, d, name, h[d][name].id);
      PathsInOrder(h, h[d][name].id, p + [name]);
      PathsAre(h, h[d][name].id, p + [name]);
      assert forall x :: p + [name] < x ==> p < x && x[|p|] == name;
    }
  }

  /* ---------- The whole map ---------- */

  ghost predicate RowIn(rows: seq<Row>, x: Path, notes: seq<Note>) {
    exists r :: r in rows && r.path == x && r.notes == notes
  }

  ghost predicate FileIn(files: seq<(Path, Symbols)>, x: Path, notes: seq<Note>) {
    exists i :: 0 <= i < |files| && files[i].0 == x && notes == NotesFor(files[i].1)
  }

  /** In each directory the branch taken by the greatest name is drawn as the last, and no other. */
  ghost predicate Branches(files: seq<(Path, Symbols)>, r: Row) {
    |r.lasts| == |r.path| &&
    forall k :: 0 <= k < |r.path| ==>
      (r.lasts[k] <==> forall n :: n in Children(files, r.path[..k]) ==> n == r.path[k] || Before(n, r.path[k]))
  }

  lemma BranchesAre(h: Heap, o: Orders, files: seq<(Path, Symbols)>, r: Row)
    requires Grown(h, o, files) && Placed(h, r.path, r.lasts)
    requires forall k :: 0 <= k < |r.path| ==> Where(h, r.path[..k]).Some?
    ensures Branches(files, r)
  {
    forall k | 0 <= k < |r.path|
      ensures r.lasts[k] <==> forall n :: n in Children(files, r.path[..k]) ==> n == r.path[k] || Before(n, r.path[k])
    {
      var q := r.path[..k];
      assert OrderAt(h, o, q) == Children(files, q);
      assert Lists(o[Where(h, q).value], h[Where(h, q).value].Keys);
    }
  }

  /** The map of any files, read back: no path comes twice, and all come in order; the branches are drawn
      as they are; every file that is shown is shown with its classes, its functions and its error, in
      this order; and the map shows exactly the files, each with its symbols, if and only if the names
      are clear. */
  lemma {:induction false} MapShowsSymbols(h: Heap, o: Orders, files: seq<(Path, Symbols)>)
    requires Grown(h, o, files)
    ensures var rows := ReadRows(Lines(h, o, 0, ""), []);
            PathsOf(rows) == Read(h, o) && NoRepeats(PathsOf(rows)) && InOrder(PathsOf(rows)) &&
            (forall r :: r in rows ==> Branches(files, r)) &&
            (forall r, i :: r in rows && 0 <= i < |files| && files[i].0 == r.path ==>
                              r.notes == NotesFor(files[i].1)) &&
            ((forall x, notes :: RowIn(rows, x, notes) <==> FileIn(files, x, notes)) <==> Clear(files))
  {
    var rows := ReadRows(Lines(h, o, 0, ""), []);
    RowsOfLines(h, o, 0, [], [], []);
    ReadLines(h, o, 0, "", [], []);
    PathsInOrder(h, 0, []);
    MapShowsFiles(h, o, files);
    forall r | r in rows ensures Branches(files, r) {
      RowPath(rows, r);
      ShownBranches(h, o, files, r);
    }
    forall r, i | r in rows && 0 <= i < |files| && files[i].0 == r.path ensures r.notes == NotesFor(files[i].1) {
      RightNotes(h, o, files, rows, r, i);
    }
    RowsAreFiles(h, o, files, rows);
  }

  lemma RowPath(rows: seq<Row>, r: Row)
    requires r in rows
    ensures r.path in PathsOf(rows)
  {
    var i :| 0 <= i < |rows| && rows[i] == r;
    assert PathsOf(rows)[i] == r.path;
  }

  lemma ShownBranches(h: Heap, o: Orders, files: seq<(Path, Symbols)>, r: Row)
    requires Grown(h, o, files) && Placed(h, r.path, r.lasts) && r.path in Read(h, o)
    ensures Branches(files, r)
  {
    ReadIs(h, o);
    assert [] + r.path == r.path;
    ShownAt(h, [], 0, r.path);
    forall k | 0 <= k < |r.path| ensures Where(h, r.path[..k]).Some? {
      assert [] + r.path[..k] == r.path[..k];
      assert k > 0 ==> Listable(h, [] + r.path[..k]);
    }
    BranchesAre(h, o, files, r);
  }

  lemma RightNotes(h: Heap, o: Orders, files: seq<(Path, Symbols)>, rows: seq<Row>, r: Row, i: nat)
    requires Grown(h, o, files) && AllRight(h, o, rows) && r in rows && i < |files| && files[i].0 == r.path
    ensures r.notes == NotesFor(files[i].1)
  {
    assert Right(h, o, r) && FileAt(h, files[i].0) == Some(files[i].1);
  }

  lemma PathRow(rows: seq<Row>, x: Path) returns (r: Row)
    requires x in PathsOf(rows)
    ensures r in rows && r.path == x
  {
    var i :| 0 <= i < |rows| && PathsOf(rows)[i] == x;
    r := rows[i];
  }

  lemma RowsAreFiles(h: Heap, o: Orders, files: seq<(Path, Symbols)>, rows: seq<Row>)
    requires Grown(h, o, files) && AllRight(h, o, rows)
    ensures (forall x, notes :: RowIn(rows, x, notes) <==> FileIn(files, x, notes)) <==>
            forall x :: x in PathsOf(rows) <==> IsFile(files, x)
  {
    if forall x :: x in PathsOf(rows) <==> IsFile(files, x) {
      forall x, notes ensures RowIn(rows, x, notes) <==> FileIn(files, x, notes) {
        SameRow(h, o, files, rows, x, notes);
      }
    }
    if forall x, notes :: RowIn(rows, x, notes) <==> FileIn(files, x, notes) {
      forall x ensures x in PathsOf(rows) <==> IsFile(files, x) {
        SamePath(files, rows, x);
      }
    }
  }

  lemma SamePath(files: seq<(Path, Symbols)>, rows: seq<Row>, x: Path)
    requires forall x, notes :: RowIn(rows, x, notes) <==> FileIn(files, x, notes)
    ensures x in PathsOf(rows) <==> IsFile(files, x)
  {
    if x in PathsOf(rows) {
      var r := PathRow(rows, x);
      assert RowIn(rows, x, r.notes);
    }
    if i :| 0 <= i < |files| && files[i].0 == x {
      assert FileIn(files, x, NotesFor(files[i].1));
      var r :| r in rows && r.path == x;
      RowPath(rows, r);
    }
  }

  lemma SameRow(h: Heap, o: Orders, files: seq<(Path, Symbols)>, rows: seq<Row>, x: Path, notes: seq<Note>)
    requires Grown(h, o, files) && AllRight(h, o, rows) && forall x :: x in PathsOf(rows) <==> IsFile(files, x)
    ensures RowIn(rows, x, notes) <==> FileIn(files, x, notes)
  {
    if r :| r in rows && r.path == x && r.notes == notes {
      RowPath(rows, r);
      var i :| 0 <= i < |files| && files[i].0 == x;
      RightNotes(h, o, files, rows, r, i);
      assert FileIn(files, x, notes);
    }
    if i :| 0 <= i < |files| && files[i].0 == x && notes == NotesFor(files[i].1) {
      assert IsFile(files, x);
      var r := PathRow(rows, x);
      RightNotes(h, o, files, rows, r, i);
      assert RowIn(rows, x, notes);
    }
  }
}
