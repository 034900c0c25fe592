/** What the two schema patterns match, piece by piece, on the texts a document consists of. */
module SchemaPatterns {
  import opened Text
  import opened Regex
  import opened SchemaScan
  import opened SchemaDocument

  /* ---------- Path keys ---------- */

  /** The pattern of a path key, piece by piece. */
  predicate IsKey(a: seq<Atom>) {
    |a| == 7 && a[0] == Lit("\n") && a[1] == Run(Space, 1) && a[2] == Lit("\"/") && a[3] == Run(NotQuote, 1) &&
    a[4] == Lit("\":") && a[5] == Run(Space, 0) && a[6] == Lit("{")
  }

  lemma PlainKey(a: seq<Atom>)
    requires IsKey(a)
    ensures Plain(a)
  {
    forall k: nat | k < |a| ensures PlainAt(a, k) {
      assert k == 0 || k == 1 || k == 2 || k == 3 || k == 4 || k == 5 || k == 6;
    }
  }

  /** A path key is a line break, white space and a quoted slash. */
  lemma KeyStarts(a: seq<Atom>, s: string)
    requires IsKey(a) && HitOf(a, 3, s).Some?
    ensures s != "" && s[0] == '\n' && "\"/" <= s[1..][RunLength(Space, s[1..])..]
  {
    PlainKey(a);
    var w := Match(a, s).value;
    PlainMatch(a, s, w);
    assert s[..w[0]] == "\n";
    assert a[1..][0] == a[1] && a[1..][1..][0] == a[2];
    var u := s[w[0]..][w[1]..];
    assert GreedyFits(a[1..][1..], u, w[1..][1..]);
    assert u[..w[2]] == "\"/";
  }

  /** What a path key is: a line break, white space, a quoted slash, a nonempty tail up to the next
      quote, a colon, more white space perhaps, and a brace. */
  ghost predicate KeyShape(s: string, h: Hit) {
    4 <= h.start < h.end && h.end + 3 <= h.stop <= |s| &&
    s[0] == '\n' && (forall i :: 1 <= i < h.start - 2 ==> IsSpace(s[i])) && s[h.start - 2..h.start] == "\"/" &&
    '"' !in s[h.start..h.end] && s[h.end..h.end + 2] == "\":" &&
    (forall i :: h.end + 2 <= i < h.stop - 1 ==> IsSpace(s[i])) && s[h.stop - 1] == '{'
  }

  /** Every match of the path pattern is such a key, with its tail as the group. */
  lemma KeyMeans(a: seq<Atom>, s: string)
    requires IsKey(a) && HitOf(a, 3, s).Some?
    ensures KeyShape(s, HitOf(a, 3, s).value)
  {
    var w := Match(a, s).value;
    MatchSound(a, s);
    assert w[..7] == w && w[..0] == [];
    KeyLits(a, s, w);
    RunAt(a, s, w, 1);
    RunAt(a, s, w, 3);
    RunAt(a, s, w, 5);
    KeyPieces(s, Sum(w[..1]), Sum(w[..2]), Sum(w[..3]), Sum(w[..4]), Sum(w[..5]), Sum(w[..6]), Sum(w));
  }

  /** The fixed pieces of a key. */
  lemma {:induction false} KeyLits(a: seq<Atom>, s: string, w: seq<nat>)
    requires IsKey(a) && Fits(a, s, w)
    ensures Sum(w[..1]) == 1 <= |s| && s[0..1] == "\n"
    ensures Sum(w[..3]) == Sum(w[..2]) + 2 <= |s| && s[Sum(w[..2])..Sum(w[..3])] == "\"/"
    ensures Sum(w[..5]) == Sum(w[..4]) + 2 <= |s| && s[Sum(w[..4])..Sum(w[..5])] == "\":"
    ensures Sum(w[..7]) == Sum(w[..6]) + 1 <= |s| && s[Sum(w[..6])..Sum(w[..7])] == "{"
  {
    LitAt(a, s, w, 0, "\n");
    LitAt(a, s, w, 2, "\"/");
    LitAt(a, s, w, 4, "\":");
    LitAt(a, s, w, 6, "{");
  }

  /** The pieces of a key, by position, make its shape. */
  lemma KeyPieces(s: string, b: nat, c: nat, d: nat, e: nat, f: nat, g: nat, h: nat)
    requires 1 == b < c && c + 2 == d < e && e + 2 == f <= g && g + 1 == h <= |s|
    requires s[0..b] == "\n" && s[c..d] == "\"/" && s[e..f] == "\":" && s[g..h] == "{"
    requires forall i :: b <= i < c || f <= i < g ==> InClass(Space, s[i])
    requires forall i :: d <= i < e ==> InClass(NotQuote, s[i])
    ensures KeyShape(s, Hit(d, e, h))
  {
    assert s[0] == s[0..b][0] && s[g] == s[g..h][0];
  }

  /* ---------- Building greedy fits ---------- */

  function PathWidths(n: nat): seq<nat> { [1] + ([4] + ([2] + ([n] + ([2] + ([1] + ([1] + [])))))) }

  /** The end of a key: a blank and the brace. */
  lemma KeyEnd(a: seq<Atom>, y: string)
    requires |a| == 2 && a[0] == Run(Space, 0) && a[1] == Lit("{")
    ensures GreedyFits(a, " " + ("{" + y), [1] + ([1] + []))
  {
    assert a[1..][1..] == [];
    FitLit(a[1..], "{", y, []);
    FitRun(a, " ", "{" + y, [1] + []);
  }

  /** The second half of a key: the tail up to the brace. */
  lemma {:induction false} KeyBack(a: seq<Atom>, tail: string, x: string, w: seq<nat>)
    requires |a| >= 2 && a[0] == Run(NotQuote, 1) && a[1] == Lit("\":")
    requires tail != "" && '"' !in tail && GreedyFits(a[2..], x, w)
    ensures GreedyFits(a, tail + ("\":" + x), [|tail|] + ([2] + w))
  {
    assert a[1..][1..] == a[2..];
    FitLit(a[1..], "\":", x, w);
    assert forall i :: 0 <= i < |tail| ==> tail[i] in tail;
    FitRun(a, tail, "\":" + x, [2] + w);
  }

  /** The first half of a key: the line break, the indent and the quoted slash. */
  lemma KeyFront(a: seq<Atom>, x: string, w: seq<nat>)
    requires |a| >= 3 && a[0] == Lit("\n") && a[1] == Run(Space, 1) && a[2] == Lit("\"/")
    requires GreedyFits(a[3..], x, w)
    ensures GreedyFits(a, "\n" + ("    " + ("\"/" + x)), [1] + ([4] + ([2] + w)))
  {
    assert a[2..][1..] == a[3..] && a[1..][1..] == a[2..];
    FitLit(a[2..], "\"/", x, w);
    FitRun(a[1..], "    ", "\"/" + x, [2] + w);
    FitLit(a, "\n", "    " + ("\"/" + x), [4] + ([2] + w));
  }

  /** The text of a key, cut into the pieces its atoms match. */
  function KeyText(tail: string, y: string): string {
    "\n" + ("    " + ("\"/" + (tail + ("\":" + (" " + ("{" + y))))))
  }

  lemma KeyTextIs(tail: string, y: string)
    ensures "\n    \"/" + (tail + ("\": {" + y)) == KeyText(tail, y)
  {
    assert "\": {" + y == "\":" + (" " + ("{" + y));
    assert "\n    \"/" == "\n" + ("    " + "\"/");
  }

  lemma KeyFits(a: seq<Atom>, tail: string, y: string)
    requires IsKey(a) && tail != "" && '"' !in tail
    ensures GreedyFits(a, KeyText(tail, y), PathWidths(|tail|))
  {
    KeyEnd(a[5..], y);
    assert a[3..][2..] == a[5..];
    KeyBack(a[3..], tail, " " + ("{" + y), [1] + ([1] + []));
    KeyFront(a, tail + ("\":" + (" " + ("{" + y))), [|tail|] + ([2] + ([1] + ([1] + []))));
  }

  /** A printed key is found, with its tail as the group. */
  lemma KeyHere(a: seq<Atom>, tail: string, y: string)
    requires IsKey(a) && tail != "" && '"' !in tail
    ensures HitOf(a, 3, "\n    \"/" + (tail + ("\": {" + y))) == Some(Hit(7, 7 + |tail|, 11 + |tail|))
  {
    KeyTextIs(tail, y);
    KeyFits(a, tail, y);
    PlainKey(a);
    PlainMatch(a, KeyText(tail, y), PathWidths(|tail|));
    PathSums(|tail|);
  }

  lemma PathSums(n: nat)
    ensures Sum(PathWidths(n)[..3]) == 7 && Sum(PathWidths(n)[..4]) == 7 + n && Sum(PathWidths(n)) == 11 + n
  {
    var w := PathWidths(n);
    var u: seq<nat>, v: seq<nat> := [1] + ([4] + [2]), [2] + ([1] + [1]);
    assert w[..3] == u && w[..4] == u + [n] && w == u + [n] + v;
    SumConcat(u, [n]);
    SumConcat(u + [n], v);
    SumCons(1, [4] + [2]);
    SumCons(4, [2]);
    SumCons(2, [1] + [1]);
    SumCons(1, [1]);
    SumCons(1, []);
    SumCons(2, []);
    SumCons(n, []);
  }

  /* ---------- Implemented methods ---------- */

  /** The pattern of an implemented method, piece by piece. */
  predicate IsImpl(a: seq<Atom>) {
    |a| == 5 && a[0] == Run(Space, 1) && a[1] == OneOf(METHODS) && a[2] == Lit(":") && a[3] == Run(Space, 0) &&
    a[4] == OneOf(["operations[", "{"])
  }

  /** Method names are made of lower-case letters. */
  lemma MethodLetters(m: string)
    requires m in METHODS
    ensures m != "" && forall i :: 0 <= i < |m| ==> 'a' <= m[i] <= 'z'
  {}

  lemma MethodsPrefixFree()
    ensures PrefixFree(METHODS) && "" !in METHODS && HeadsOutside(METHODS, Space)
  {
    forall i, j | 0 <= i < |METHODS| && 0 <= j < |METHODS| && METHODS[i] <= METHODS[j]
      ensures METHODS[i] == METHODS[j]
    {
      assert METHODS[i][0] == METHODS[j][0] && METHODS[i][1] == METHODS[j][1] && METHODS[i][2] == METHODS[j][2];
    }
  }

  lemma PlainImpl(a: seq<Atom>)
    requires IsImpl(a)
    ensures Plain(a)
  {
    MethodsPrefixFree();
    var last := a[4].options;
    assert last[0][0] == 'o' && last[1][0] == '{';
    assert PrefixFree(last);
    forall k: nat | k < |a| ensures PlainAt(a, k) {
      assert k == 0 || k == 1 || k == 2 || k == 3 || k == 4;
    }
  }

  /** What starts an implemented method: white space, a method name and a colon. */
  lemma ImplMeans(a: seq<Atom>, s: string)
    requires IsImpl(a) && HitOf(a, 1, s).Some?
    ensures exists m :: m in METHODS && m + ":" <= s[RunLength(Space, s)..]
  {
    PlainImpl(a);
    var w := Match(a, s).value;
    PlainMatch(a, s, w);
    assert a[1..][0] == a[1] && a[1..][1..][0] == a[2];
    var t := s[w[0]..];
    assert GreedyFits(a[1..], t, w[1..]);
    var u := t[w[1]..];
    assert GreedyFits(a[1..][1..], u, w[1..][1..]);
    var m := t[..w[1]];
    assert u[..w[2]] == ":";
    assert t[..|m| + 1] == m + ":";
  }

  function ImplWidths(indent: nat, name: nat, gap: nat, opener: nat): seq<nat> {
    [indent] + ([name] + ([1] + ([gap] + ([opener] + []))))
  }

  lemma ImplSums(indent: nat, name: nat, gap: nat, opener: nat)
    ensures var w := ImplWidths(indent, name, gap, opener);
            Sum(w[..1]) == indent && Sum(w[..2]) == indent + name && Sum(w) == indent + name + 1 + gap + opener
  {
    var w := ImplWidths(indent, name, gap, opener);
    assert w[..1] == [indent] + [] && w[..2] == [indent] + ([name] + []);
    SumCons(indent, []);
    SumCons(name, []);
    SumCons(indent, [name] + []);
    SumCons(opener, []);
    SumCons(gap, [opener] + []);
    SumCons(1, [gap] + ([opener] + []));
    SumCons(name, [1] + ([gap] + ([opener] + [])));
    SumCons(indent, [name] + ([1] + ([gap] + ([opener] + []))));
  }

  lemma ImplEnd(a: seq<Atom>, gap: nat, opener: string, y: string)
    requires |a| == 2 && a[0] == Run(Space, 0) && a[1] == OneOf(["operations[", "{"])
    requires opener in ["operations[", "{"]
    ensures GreedyFits(a, Blanks(gap) + (opener + y), [gap] + ([|opener|] + []))
  {
    assert a[1..][1..] == [];
    FitLit(a[1..], opener, y, []);
    assert opener[0] == 'o' || opener[0] == '{';
    FitRun(a, Blanks(gap), opener + y, [|opener|] + []);
  }

  lemma {:induction false} ImplName(a: seq<Atom>, name: string, x: string, w: seq<nat>)
    requires |a| >= 2 && a[0].OneOf? && name in a[0].options && a[1] == Lit(":") && GreedyFits(a[2..], x, w)
    ensures GreedyFits(a, name + (":" + x), [|name|] + ([1] + w))
  {
    assert a[1..][1..] == a[2..];
    FitLit(a[1..], ":", x, w);
    FitLit(a, name, ":" + x, [1] + w);
  }

  lemma {:induction false} ImplFront(a: seq<Atom>, r: string, name: string, x: string, w: seq<nat>)
    requires |a| >= 3 && a[0] == Run(Space, 1) && a[1].OneOf? && name in a[1].options && a[2] == Lit(":")
    requires r != "" && (forall i :: 0 <= i < |r| ==> IsSpace(r[i])) && name != "" && !IsSpace(name[0])
    requires GreedyFits(a[3..], x, w)
    ensures GreedyFits(a, r + (name + (":" + x)), [|r|] + ([|name|] + ([1] + w)))
  {
    var z, v := name + (":" + x), [|name|] + ([1] + w);
    assert GreedyFits(a[1..], z, v) by {
      assert a[1..][2..] == a[3..];
      ImplName(a[1..], name, x, w);
    }
    assert z[0] == name[0];
    FitRun(a, r, z, v);
  }

  /** An operation line is found behind any white space, with its method as the group. */
  lemma OpHere(a: seq<Atom>, r: string, l: Line, y: string)
    requires IsImpl(a) && l.Valid() && l.Op?
    requires r != "" && forall i :: 0 <= i < |r| ==> IsSpace(r[i])
    ensures HitOf(a, 1, r + (l.name + (":" + (Blanks(l.gap) + (l.opener + y))))) ==
            Some(Hit(|r|, |r| + |l.name|, |r| + |l.name| + 1 + l.gap + |l.opener|))
  {
    ImplEnd(a[3..], l.gap, l.opener, y);
    MethodLetters(l.name);
    ImplFront(a, r, l.name, Blanks(l.gap) + (l.opener + y), [l.gap] + ([|l.opener|] + []));
    PlainImpl(a);
    PlainMatch(a, r + (l.name + (":" + (Blanks(l.gap) + (l.opener + y)))),
               ImplWidths(|r|, |l.name|, l.gap, |l.opener|));
    ImplSums(|r|, |l.name|, l.gap, |l.opener|);
  }
}
