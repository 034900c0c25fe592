/** Python's order on strings, and sorting by it. */
module Order {
  /** Python's order on strings, by code point. */
  predicate Before(a: string, b: string) {
    b != "" && (a == "" || a[0] < b[0] || (a[0] == b[0] && Before(a[1..], b[1..])))
  }

  /** One string comes before another if it is its beginning, or smaller where they first differ. */
  lemma {:induction false} BeforeIs(a: string, b: string)
    ensures Before(a, b) <==> a < b || exists k: nat :: Smaller(a, b, k)
  {
    if a != "" && b != "" {
      assert a == [a[0]] + a[1..] && b == [b[0]] + b[1..];
      if a[0] == b[0] {
        BeforeIs(a[1..], b[1..]);
        SmallerBehind(a, b);
      } else {
        if a[0] < b[0] {
          assert Smaller(a, b, 0);
        }
        forall k: nat | Smaller(a, b, k) ensures k == 0 {
          if k > 0 {
            SameStart(a, b, k);
          }
        }
      }
    }
  }

  predicate Smaller(a: string, b: string, k: nat) {
    k < |a| && k < |b| && a[..k] == b[..k] && a[k] < b[k]
  }

  lemma SameStart(a: string, b: string, k: nat)
    requires 0 < k <= |a| && k <= |b| && a[..k] == b[..k]
    ensures a[0] == b[0]
  {
    assert a[0] == a[..k][0];
  }

  lemma SmallerBehind(a: string, b: string)
    requires a != "" && b != "" && a[0] == b[0]
    ensures (exists k: nat :: Smaller(a, b, k)) <==> exists k: nat :: Smaller(a[1..], b[1..], k)
  {
    if k: nat :| Smaller(a, b, k) {
      assert k > 0;
      assert a[..k][1..] == a[1..][..k - 1] && b[..k][1..] == b[1..][..k - 1];
      assert Smaller(a[1..], b[1..], k - 1);
    }
    if k: nat :| Smaller(a[1..], b[1..], k) {
      assert a[..k + 1] == [a[0]] + a[1..][..k] && b[..k + 1] == [b[0]] + b[1..][..k];
      assert Smaller(a, b, k + 1);
    }
  }

  lemma {:induction false} BeforeChains(a: string, b: string, c: string)
    requires Before(a, b) && Before(b, c)
    ensures Before(a, c)
  {
    if a != "" && a[0] == b[0] == c[0] {
      BeforeChains(a[1..], b[1..], c[1..]);
    }
  }

  lemma {:induction false} BeforeTotal(a: string, b: string)
    ensures a == b || Before(a, b) || Before(b, a)
    ensures !Before(a, a)
  {
    if a != "" {
      BeforeTotal(a[1..], if b == "" then b else b[1..]);
      if b != "" && a[0] == b[0] && a[1..] == b[1..] {
        assert a == [a[0]] + a[1..] && b == [b[0]] + b[1..];
      }
    }
  }

  /** `l` is `sorted(s)`. */
  ghost predicate IsSorted(l: seq<string>, s: set<string>) {
    (forall x :: x in l <==> x in s) && forall i, j :: 0 <= i < j < |l| ==> Before(l[i], l[j])
  }

  method Sorted(s: set<string>) returns (l: seq<string>)
    ensures IsSorted(l, s)
  {
    l := [];
    var left := s;
    while left != {}
      invariant left <= s && IsSorted(l, s - left)
      decreases left
    {
      var x :| x in left;
      var i := 0;
      while i < |l| && Before(l[i], x)
        invariant 0 <= i <= |l| && forall k :: 0 <= k < i ==> Before(l[k], x)
      {
        i := i + 1;
      }
      assert x !in l;
      if i < |l| {
        BeforeTotal(l[i], x);
        assert l[i] in l;
      }
      Insert(l, s - left, i, x);
      l := l[..i] + [x] + l[i..];
      left := left - {x};
      assert s - left == (s - (left + {x})) + {x};
    }
    assert s - left == s;
  }

  lemma {:induction false} Insert(l: seq<string>, s: set<string>, i: nat, x: string)
    requires IsSorted(l, s) && i <= |l| && (forall k :: 0 <= k < i ==> Before(l[k], x)) && (i < |l| ==> Before(x, l[i]))
    ensures IsSorted(l[..i] + [x] + l[i..], s + {x})
  {
    var r := l[..i] + [x] + l[i..];
    forall k | i < k < |l| ensures Before(x, l[k]) {
      BeforeChains(x, l[i], l[k]);
    }
    forall a, b | 0 <= a < b < |r| ensures Before(r[a], r[b]) {
      assert a < i ==> r[a] == l[a];
      assert a > i ==> r[a] == l[a - 1];
      assert b < i ==> r[b] == l[b];
      assert b > i ==> r[b] == l[b - 1];
    }
    assert l == l[..i] + l[i..];
  }

  lemma {:induction false} SortedLength(l: seq<string>, s: set<string>)
    requires IsSorted(l, s)
    ensures |l| == |s|
    decreases |l|
  {
    if l != [] {
      var rest := s - {l[0]};
      forall i | 0 < i < |l| ensures l[i] != l[0] {
        BeforeTotal(l[0], l[0]);
      }
      assert l == [l[0]] + l[1..];
      assert l[0] in l;
      assert forall x :: x in l[1..] <==> x in rest;
      SortedLength(l[1..], rest);
    }
  }

  lemma {:induction false} CanSort(s: set<string>)
    ensures exists l :: IsSorted(l, s)
    decreases s
  {
    if s == {} {
      assert IsSorted([], s);
    } else {
      var x :| x in s;
      CanSort(s - {x});
      var l :| IsSorted(l, s - {x});
      var i := Place(l, s - {x}, x);
      Insert(l, s - {x}, i, x);
      assert (s - {x}) + {x} == s;
    }
  }

  /** Where a new element belongs. */
  lemma Place(l: seq<string>, s: set<string>, x: string) returns (i: nat)
    requires IsSorted(l, s) && x !in s
    ensures i <= |l| && (forall k :: 0 <= k < i ==> Before(l[k], x)) && (i < |l| ==> Before(x, l[i]))
  {
    i := 0;
    while i < |l| && Before(l[i], x)
      invariant 0 <= i <= |l| && forall k :: 0 <= k < i ==> Before(l[k], x)
    {
      i := i + 1;
    }
    if i < |l| {
      assert l[i] in l;
      BeforeTotal(l[i], x);
    }
  }

  /** `sorted`, as a function. */
  ghost function SortedOf(s: set<string>): (l: seq<string>)
    ensures IsSorted(l, s)
  {
    CanSort(s);
    var l :| IsSorted(l, s);
    l
  }

  /** There is one way to sort a set. */
  lemma {:induction false} SortedUnique(a: seq<string>, b: seq<string>, s: set<string>)
    requires IsSorted(a, s) && IsSorted(b, s)
    ensures a == b
    decreases |a|
  {
    if s == {} {
      NoneSorted(a);
      NoneSorted(b);
    } else {
      var x :| x in s;
      assert x in a && x in b;
      SameFirst(a, b, s);
      TailSorted(a, s);
      TailSorted(b, s);
      SortedUnique(a[1..], b[1..], s - {a[0]});
      assert a == [a[0]] + a[1..] && b == [b[0]] + b[1..];
    }
  }

  lemma NoneSorted(l: seq<string>)
    requires IsSorted(l, {})
    ensures l == []
  {
    SortedLength(l, {});
  }

  lemma SameFirst(a: seq<string>, b: seq<string>, s: set<string>)
    requires IsSorted(a, s) && IsSorted(b, s) && a != [] && b != []
    ensures a[0] == b[0]
  {
    assert a[0] in a && b[0] in b;
    var i :| 0 <= i < |a| && a[i] == b[0];
    var j :| 0 <= j < |b| && b[j] == a[0];
    if i > 0 && j > 0 {
      BeforeChains(a[0], b[0], a[0]);
      BeforeTotal(a[0], a[0]);
    }
  }

  lemma TailSorted(l: seq<string>, s: set<string>)
    requires IsSorted(l, s) && l != []
    ensures IsSorted(l[1..], s - {l[0]})
  {
    BeforeTotal(l[0], l[0]);
    assert l == [l[0]] + l[1..];
    forall x | x in l[1..] ensures x in s - {l[0]} {
      var i :| 0 <= i < |l[1..]| && l[1..][i] == x;
      assert l[i + 1] == x && x in l;
    }
  }
}
