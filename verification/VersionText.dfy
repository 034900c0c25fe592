/** What a version is, written out. */
module VersionText {
  import opened Text
  import opened Regex
  import opened VersionSites

  /** Digits up to a dot at `i`, digits up to a dot at `j`, and digits to the end. */
  ghost predicate ThreeNumbers(v: string, i: nat, j: nat) {
    0 < i && i + 1 < j && j + 1 < |v| && v[i] == '.' && v[j] == '.' &&
    forall k :: 0 <= k < |v| && k != i && k != j ==> v[k] in "0123456789"
  }

  ghost predicate Numbers(v: string, i: nat, j: nat) {
    0 < i && i + 1 < j && j + 1 < |v| && v[i] == '.' && v[j] == '.' &&
    forall k :: 0 <= k < |v| && k != i && k != j ==> IsDigit(v[k])
  }

  lemma NumbersAre(v: string, i: nat, j: nat)
    ensures Numbers(v, i, j) <==> ThreeNumbers(v, i, j)
  {
    forall c ensures IsDigit(c) <==> c in "0123456789" {
      DigitsAre(c);
    }
  }

  lemma DigitsAre(c: char)
    ensures IsDigit(c) <==> c in "0123456789"
  {
    if IsDigit(c) {
      assert c == "0123456789"[c as int - '0' as int];
    }
  }

  /** A version is three nonempty numbers with dots between them, and nothing else. */
  lemma {:induction false} SemverIs(v: string)
    ensures Semver(v) <==> exists i: nat, j: nat :: ThreeNumbers(v, i, j)
  {
    if Semver(v) {
      var i, j := NumbersOf(VersionAtoms(), v);
      NumbersAre(v, i, j);
    }
    if i: nat, j: nat :| ThreeNumbers(v, i, j) {
      NumbersAre(v, i, j);
      NumbersFit(VersionAtoms(), v, i, j);
    }
  }

  lemma {:induction false} NumbersOf(a: seq<Atom>, v: string) returns (i: nat, j: nat)
    requires a == VersionAtoms() && Semver(v)
    ensures Numbers(v, i, j)
  {
    var w := VersionWidths(v);
    GreedyIsFit(a, v, w);
    assert w[..0] == [] && w[..5] == w;
    RunAt(a, v, w, 0);
    RunAt(a, v, w, 2);
    RunAt(a, v, w, 4);
    LitAt(a, v, w, 1, ".");
    LitAt(a, v, w, 3, ".");
    i, j := Sum(w[..1]), Sum(w[..3]);
    assert v[i..i + 1][0] == v[i] && v[j..j + 1][0] == v[j];
  }

  lemma {:induction false} NumbersFit(a: seq<Atom>, v: string, i: nat, j: nat)
    requires a == VersionAtoms() && Numbers(v, i, j)
    ensures Semver(v)
  {
    var x, y, z := v[..i], v[i + 1..j], v[j + 1..];
    var w := [i] + ([1] + ([j - i - 1] + ([1] + ([|z|] + []))));
    NumbersText(v, i, j);
    ThreeFit(a, x, y, z);
    PlainVersion();
    PlainMatch(a, v, w);
    WidthSum(i, j - i - 1, |z|);
  }

  lemma NumbersText(v: string, i: nat, j: nat)
    requires i < j < |v| && v[i] == '.' && v[j] == '.'
    ensures v == v[..i] + ("." + (v[i + 1..j] + ("." + (v[j + 1..] + ""))))
  {
    assert v == v[..i] + ([v[i]] + (v[i + 1..j] + ([v[j]] + v[j + 1..])));
    assert v[j + 1..] + "" == v[j + 1..];
  }

  lemma {:induction false} WidthSum(x: nat, y: nat, z: nat)
    ensures Sum([x] + ([1] + ([y] + ([1] + ([z] + []))))) == x + y + z + 2
  {
    SumCons(z, []);
    SumCons(1, [z] + []);
    SumCons(y, [1] + ([z] + []));
    SumCons(1, [y] + ([1] + ([z] + [])));
    SumCons(x, [1] + ([y] + ([1] + ([z] + []))));
  }

  predicate Digits(x: string) { x != "" && forall k :: 0 <= k < |x| ==> IsDigit(x[k]) }

  lemma {:induction false} ThreeFit(a: seq<Atom>, x: string, y: string, z: string)
    requires a == VersionAtoms() && Digits(x) && Digits(y) && Digits(z)
    ensures GreedyFits(a, x + ("." + (y + ("." + (z + "")))), [|x|] + ([1] + ([|y|] + ([1] + ([|z|] + [])))))
  {
    assert a[4..][1..] == [];
    FitRun(a[4..], z, "", []);
    NumberAndDot(a[2..], y, z + "", [|z|] + []);
    NumberAndDot(a, x, y + ("." + (z + "")), [|y|] + ([1] + ([|z|] + [])));
  }

  lemma {:induction false} NumberAndDot(a: seq<Atom>, x: string, y: string, w: seq<nat>)
    requires |a| >= 2 && a[0] == Run(Digit, 1) && a[1] == Lit(".") && Digits(x) && GreedyFits(a[2..], y, w)
    ensures GreedyFits(a, x + ("." + y), [|x|] + ([1] + w))
  {
    assert a[1..][1..] == a[2..];
    FitLit(a[1..], ".", y, w);
    FitRun(a, x, "." + y, [1] + w);
  }
}
