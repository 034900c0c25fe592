/** When the printed map shows the files of the repository: exactly when no file lies in or is
    called `classes` or `functions` below the top level. */
module RepoMap {
  import opened Text
  import opened Order
  import opened RepoTree
  import opened RepoListing

  /* ---------- What is listed, by path ---------- */

  /** A path whose line looks like that of a file, seen from the directory `d`. */
  ghost predicate Shown(h: Heap, d: nat, q: Path)
    requires Valid(h) && d < |h|
    decreases |q|
  {
    q != [] && q[0] in h[d] &&
    match h[d][q[0]]
    case File(_) => |q| == 1
    case Dir(id) =>
      assert Refers(h, d, q[0], id);
      if TakenForFile(h[id]) then |q| == 1 else Shown(h, id, q[1..])
  }

  /** Every listed path lies below `p`. */
  ghost predicate AllBelow(paths: seq<Path>, p: Path) {
    forall x :: x in paths ==> p < x
  }

  ghost predicate NoRepeats(paths: seq<Path>) {
    forall i, j :: 0 <= i < j < |paths| ==> paths[i] != paths[j]
  }

  /** What stands behind the first `|p|` names. */
  function Behind(p: Path, x: Path): Path
    requires p <= x
  {
    x[|p|..]
  }

  /** The listing shows what is to be shown, each path once. */
  lemma {:induction false} PathsAre(h: Heap, d: nat, p: Path)
    requires Valid(h) && d < |h|
    ensures AllBelow(Paths(h, d, p), p) && NoRepeats(Paths(h, d, p))
    ensures forall x :: x in Paths(h, d, p) <==> p <= x && Shown(h, d, Behind(p, x))
    decreases |h| - d, 2, 0
  {
    var names := SortedOf(h[d].Keys);
    forall i, j | 0 <= i < j < |names| ensures names[i] != names[j] {
      BeforeTotal(names[i], names[i]);
    }
    ItemsAre(h, d, names, p);
    forall x | p <= x && Shown(h, d, Behind(p, x)) ensures Behind(p, x)[0] in names {}
  }

  lemma {:induction false} ItemsAre(h: Heap, d: nat, names: seq<string>, p: Path)
    requires Valid(h) && d < |h| && forall n :: n in names ==> n in h[d]
    requires forall i, j :: 0 <= i < j < |names| ==> names[i] != names[j]
    ensures AllBelow(ItemPaths(h, d, names, p), p) && NoRepeats(ItemPaths(h, d, names, p))
    ensures forall x :: x in ItemPaths(h, d, names, p) <==>
              p <= x && Shown(h, d, Behind(p, x)) && Behind(p, x)[0] in names
    decreases |h| - d, 1, |names|
  {
    if names != [] {
      var first, rest := EntryPaths(h, d, names[0], p), ItemPaths(h, d, names[1..], p);
      assert names[0] in names && names == [names[0]] + names[1..];
      EntryIs(h, d, names[0], p);
      ItemsAre(h, d, names[1..], p);
      assert names[0] !in names[1..];
      forall x | x in first ensures x !in rest {}
      Apart(first, rest);
    }
  }

  lemma Apart(a: seq<Path>, b: seq<Path>)
    requires NoRepeats(a) && NoRepeats(b) && forall x :: x in a ==> x !in b
    ensures NoRepeats(a + b)
  {
    forall i, j | 0 <= i < j < |a + b| ensures (a + b)[i] != (a + b)[j] {
      if i < |a| <= j {
        assert a[i] in a && b[j - |a|] in b;
      }
    }
  }

  lemma {:induction false} EntryIs(h: Heap, d: nat, name: string, p: Path)
    requires Valid(h) && d < |h| && name in h[d]
    ensures AllBelow(EntryPaths(h, d, name, p), p) && NoRepeats(EntryPaths(h, d, name, p))
    ensures forall x :: x in EntryPaths(h, d, name, p) <==>
              p <= x && Shown(h, d, Behind(p, x)) && Behind(p, x)[0] == name
    decreases |h| - d, 0, 0
  {
    var inside := Inside(h, d, name);
    if inside.Some? {
      PathsAre(h, inside.value, p + [name]);
    }
    forall x
      ensures x in EntryPaths(h, d, name, p) <==> p <= x && Shown(h, d, Behind(p, x)) && Behind(p, x)[0] == name
    {
      OneDown(p, name, x);
    }
  }

  /** The directory whose content is listed for an entry, if any. */
  function Inside(h: Heap, d: nat, name: string): (r: Option<nat>)
    requires Valid(h) && d < |h| && name in h[d]
    ensures r.Some? ==> Refers(h, d, name, r.value)
  {
    match h[d][name]
    case File(_) => None
    case Dir(id) =>
      assert Refers(h, d, name, id);
      if TakenForFile(h[id]) then None else Some(id)
  }

  lemma OneDown(p: Path, name: string, x: Path)
    ensures p + [name] <= x <==> p <= x && Behind(p, x) != [] && Behind(p, x)[0] == name
    ensures p + [name] <= x ==> Behind(p, x)[1..] == Behind(p + [name], x)
    ensures x == p + [name] <==> p <= x && |Behind(p, x)| == 1 && Behind(p, x)[0] == name
  {}

  /* ---------- What is listed, from the root ---------- */

  /** A directory below the root whose content is not listed. */
  ghost predicate Mistaken(h: Heap, x: Path)
    requires Valid(h)
  {
    x != [] && Where(h, x).Some? && TakenForFile(h[Where(h, x).value])
  }

  ghost predicate Listable(h: Heap, x: Path)
    requires Valid(h)
  {
    Where(h, x).Some? && !TakenForFile(h[Where(h, x).value])
  }

  lemma ChildAt(h: Heap, p: Path, d: nat, name: string)
    requires Valid(h) && Where(h, p) == Some(d)
    ensures FileAt(h, p + [name]).Some? <==> name in h[d] && h[d][name].File?
    ensures Where(h, p + [name]) == if name in h[d] && h[d][name].Dir? then Some(h[d][name].id) else None
  {
    assert Front(p + [name]) == p && Last(p + [name]) == name;
  }

  /** A path is shown exactly when the directories above it are listed and it is a file or a
      directory mistaken for one. */
  lemma {:induction false} ShownAt(h: Heap, p: Path, d: nat, q: Path)
    requires Valid(h) && Where(h, p) == Some(d)
    ensures Shown(h, d, q) <==>
            q != [] && (forall k :: 0 < k < |q| ==> Listable(h, p + q[..k])) &&
            (FileAt(h, p + q).Some? || Mistaken(h, p + q))
    decreases |q|
  {
    if q != [] {
      ChildAt(h, p, d, q[0]);
      assert q[..1] == [q[0]];
      if |q| == 1 {
        assert q == [q[0]];
      } else if Listable(h, p + [q[0]]) {
        ShownAt(h, p + [q[0]], Where(h, p + [q[0]]).value, q[1..]);
        OneLower(p, q);
      }
    }
  }

  lemma OneLower(p: Path, q: Path)
    requires q != []
    ensures var p', q' := p + [q[0]], q[1..];
            p' + q' == p + q && (forall k :: 0 < k < |q'| ==> p' + q'[..k] == p + q[..k + 1]) &&
            forall k :: 1 < k < |q| ==> p + q[..k] == p' + q'[..k - 1]
  {}

  /* ---------- When the map shows the files ---------- */

  predicate BadName(n: string) { n == "classes" || n == "functions" }

  /** No file lies in, or is called, `classes` or `functions`, except at the top level. */
  ghost predicate Clear(files: seq<(Path, Symbols)>) {
    forall i, k :: 0 <= i < |files| && 1 <= k < |files[i].0| ==> !BadName(files[i].0[k])
  }

  ghost predicate IsFile(files: seq<(Path, Symbols)>, x: Path) {
    exists i :: 0 <= i < |files| && files[i].0 == x
  }

  /** In a built tree a directory is mistaken for a file exactly when some file makes it so. */
  lemma MistakenFor(h: Heap, files: seq<(Path, Symbols)>, x: Path)
    requires Valid(h) && Holds(h, files, |files|)
    ensures Mistaken(h, x) <==>
            x != [] && exists i :: 0 <= i < |files| && x < files[i].0 && BadName(files[i].0[|x|])
  {
    if x != [] && Where(h, x).Some? {
      var d := Where(h, x).value;
      forall n: string ensures n in h[d] <==> exists i :: 0 <= i < |files| && x < files[i].0 && files[i].0[|x|] == n {
        EntryFrom(h, files, x, d, n);
      }
      if i :| 0 <= i < |files| && x < files[i].0 && BadName(files[i].0[|x|]) {
        assert files[i].0[|x|] in h[d];
      }
    }
  }

  lemma EntryFrom(h: Heap, files: seq<(Path, Symbols)>, x: Path, d: nat, n: string)
    requires Valid(h) && Holds(h, files, |files|) && Where(h, x) == Some(d)
    ensures n in h[d] <==> exists i :: 0 <= i < |files| && x < files[i].0 && files[i].0[|x|] == n
  {
    ChildAt(h, x, d, n);
    InTree(h, files, x + [n]);
    forall i | 0 <= i < |files| ensures x + [n] <= files[i].0 <==> x < files[i].0 && files[i].0[|x|] == n {
      OneMoreName(x, n, files[i].0);
    }
  }

  lemma OneMoreName(x: Path, n: string, p: Path)
    ensures x + [n] <= p <==> x < p && p[|x|] == n
  {}

  /** What is in a built tree leads to a file. */
  lemma InTree(h: Heap, files: seq<(Path, Symbols)>, y: Path)
    requires Valid(h) && Holds(h, files, |files|) && y != []
    ensures FileAt(h, y).Some? || Where(h, y).Some? <==> exists i :: 0 <= i < |files| && y <= files[i].0
  {
    if i :| 0 <= i < |files| && y <= files[i].0 {
      assert y == files[i].0 || y < files[i].0;
    }
  }

  /** No directory below the root is mistaken for a file exactly when the names are clear. */
  lemma ClearIs(h: Heap, files: seq<(Path, Symbols)>)
    requires Valid(h) && Holds(h, files, |files|)
    ensures Clear(files) <==> forall x :: !Mistaken(h, x)
  {
    if Clear(files) {
      forall x ensures !Mistaken(h, x) {
        MistakenFor(h, files, x);
      }
    } else {
      var i, k :| 0 <= i < |files| && 1 <= k < |files[i].0| && BadName(files[i].0[k]);
      MistakenFor(h, files, files[i].0[..k]);
      assert files[i].0[..k] < files[i].0;
    }
  }

  /** Of the mistaken directories the topmost is shown. */
  lemma {:induction false} TopmostShown(h: Heap, x: Path) returns (top: Path)
    requires Valid(h) && Mistaken(h, x)
    ensures Mistaken(h, top) && Shown(h, 0, top)
    decreases |x|
  {
    if k :| 0 < k < |x| && Mistaken(h, x[..k]) {
      top := TopmostShown(h, x[..k]);
    } else {
      top := x;
      forall k | 0 < k < |x| ensures Listable(h, x[..k]) {
        AboveIs(h, x, k);
      }
      assert forall k :: 0 < k < |x| ==> [] + x[..k] == x[..k];
      assert [] + x == x;
      ShownAt(h, [], 0, x);
    }
  }

  /** The directories above a directory are directories. */
  lemma {:induction false} AboveIs(h: Heap, x: Path, k: nat)
    requires Valid(h) && Where(h, x).Some? && k <= |x|
    ensures Where(h, x[..k]).Some?
    decreases |x|
  {
    if k == |x| {
      assert x[..k] == x;
    } else {
      AboveIs(h, Front(x), k);
      assert Front(x)[..k] == x[..k];
    }
  }

  /** If nothing is mistaken, exactly the files are shown. */
  lemma ShowsFiles(h: Heap, files: seq<(Path, Symbols)>, x: Path)
    requires Valid(h) && Holds(h, files, |files|) && forall y :: !Mistaken(h, y)
    ensures Shown(h, 0, x) <==> IsFile(files, x)
  {
    assert [] + x == x;
    ShownAt(h, [], 0, x);
    assert FileAt(h, x).Some? <==> IsFile(files, x);
    if FileAt(h, x).Some? {
      forall k | 0 < k < |x| ensures Listable(h, [] + x[..k]) {
        assert [] + x[..k] == x[..k];
        ListableAbove(h, x, k);
      }
    }
  }

  lemma ListableAbove(h: Heap, x: Path, k: nat)
    requires Valid(h) && FileAt(h, x).Some? && 0 < k < |x| && !Mistaken(h, x[..k])
    ensures Listable(h, x[..k])
  {
    AboveIs(h, Front(x), k);
    assert Front(x)[..k] == x[..k];
  }

  /** What is read back from the printed lines. */
  ghost function Read(h: Heap, o: Orders): seq<Path>
    requires Valid(h) && Ordered(h, o)
  {
    ReadFiles(Lines(h, o, 0, ""), [])
  }

  /** Reading gives every path shown, once. */
  lemma ReadIs(h: Heap, o: Orders)
    requires Valid(h) && Named(h) && Ordered(h, o)
    ensures NoRepeats(Read(h, o)) && forall x :: x in Read(h, o) <==> Shown(h, 0, x)
  {
    ReadLines(h, o, 0, "", [], []);
    PathsAre(h, 0, []);
    assert forall x: Path :: Behind([], x) == x;
  }

  /** Reading the printed lines of a built tree gives no path twice, and it gives exactly the files
      if and only if the names are clear - whatever the order of the keys, and so the lines printed
      beneath a directory mistaken for a file. */
  lemma MapShowsFiles(h: Heap, o: Orders, files: seq<(Path, Symbols)>)
    requires Valid(h) && Named(h) && Ordered(h, o) && Holds(h, files, |files|)
    ensures NoRepeats(Read(h, o))
    ensures (forall x :: x in Read(h, o) <==> IsFile(files, x)) <==> Clear(files)
  {
    ReadIs(h, o);
    ClearIs(h, files);
    if Clear(files) {
      forall x ensures x in Read(h, o) <==> IsFile(files, x) {
        ShowsFiles(h, files, x);
      }
    } else {
      var x :| Mistaken(h, x);
      var top := TopmostShown(h, x);
      assert FileAt(h, top).None? && Where(h, top).Some?;
    }
  }
}
