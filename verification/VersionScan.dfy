/** Scanning a whole text for one site's versions and rewriting all of them: the two agree, and
    rewriting one site leaves every other site of the same file as it was. */
module VersionScan {
  import opened Text
  import opened Regex
  import opened VersionSites

  /* ---------- finditer and sub ---------- */

  /** The version group of every match, left to right, without overlaps. */
  function FindVersions(p: SiteRow, s: string): seq<string>
    requires p.WellFormed()
    decreases |s|
  {
    if s == "" then []
    else match HitAt(p, s)
         case Some(h) => [s[h.start..h.end]] + FindVersions(p, s[h.stop..])
         case None => FindVersions(p, s[1..])
  }

  /** The matched text with only its version replaced. */
  function SwapVersion(whole: string, h: Hit, v: string): string
    requires h.start <= h.end <= |whole|
  {
    whole[..h.start] + v + whole[h.end..]
  }

  /** Every match rewritten to `v`, everything else copied. */
  function Rewrite(p: SiteRow, s: string, v: string): string
    requires p.WellFormed()
    decreases |s|
  {
    if s == "" then ""
    else match HitAt(p, s)
         case Some(h) => SwapVersion(s[..h.stop], h, v) + Rewrite(p, s[h.stop..], v)
         case None => [s[0]] + Rewrite(p, s[1..], v)
  }

  /* ---------- The text outside the versions ---------- */

  /** The pieces of text around the versions, one more than there are versions. */
  function Skeleton(p: SiteRow, s: string): (r: seq<string>)
    requires p.WellFormed()
    ensures |r| == |FindVersions(p, s)| + 1
    decreases |s|
  {
    if s == "" then [""]
    else match HitAt(p, s)
         case Some(h) => [s[..h.start]] + Glue(s[h.end..h.stop], Skeleton(p, s[h.stop..]))
         case None => Glue([s[0]], Skeleton(p, s[1..]))
  }

  function Glue(x: string, pieces: seq<string>): (r: seq<string>)
    requires pieces != []
    ensures |r| == |pieces|
  {
    [x + pieces[0]] + pieces[1..]
  }

  /** Pieces and versions put back together. */
  function Interleave(pieces: seq<string>, versions: seq<string>): string
    requires |pieces| == |versions| + 1
  {
    if versions == [] then pieces[0]
    else pieces[0] + versions[0] + Interleave(pieces[1..], versions[1..])
  }

  function Repeat(v: string, n: nat): (r: seq<string>)
    ensures |r| == n && forall i :: 0 <= i < n ==> r[i] == v
  {
    seq(n, _ => v)
  }

  lemma InterleaveGlue(x: string, pieces: seq<string>, versions: seq<string>)
    requires |pieces| == |versions| + 1
    ensures Interleave(Glue(x, pieces), versions) == x + Interleave(pieces, versions)
  {
    if versions == [] {
    } else {
      assert Glue(x, pieces)[1..] == pieces[1..];
    }
  }

  /** A text is its skeleton filled with its versions, and rewriting fills the same skeleton
      with the new version: nothing outside the version spans changes. */
  lemma {:induction false} RewriteFillsSkeleton(p: SiteRow, s: string, v: string)
    requires p.WellFormed()
    ensures s == Interleave(Skeleton(p, s), FindVersions(p, s))
    ensures Rewrite(p, s, v) == Interleave(Skeleton(p, s), Repeat(v, |FindVersions(p, s)|))
    decreases |s|
  {
    if s != "" {
      match HitAt(p, s)
      case Some(h) =>
        RewriteFillsSkeleton(p, s[h.stop..], v);
        FillAtHit(p, s, v, h);
      case None =>
        var ps, vs := Skeleton(p, s[1..]), FindVersions(p, s[1..]);
        RewriteFillsSkeleton(p, s[1..], v);
        InterleaveGlue([s[0]], ps, vs);
        InterleaveGlue([s[0]], ps, Repeat(v, |vs|));
    }
  }

  lemma {:induction false} FillAtHit(p: SiteRow, s: string, v: string, h: Hit)
    requires p.WellFormed() && s != "" && HitAt(p, s) == Some(h)
    requires var rest := s[h.stop..];
             rest == Interleave(Skeleton(p, rest), FindVersions(p, rest)) &&
             Rewrite(p, rest, v) == Interleave(Skeleton(p, rest), Repeat(v, |FindVersions(p, rest)|))
    ensures s == Interleave(Skeleton(p, s), FindVersions(p, s))
    ensures Rewrite(p, s, v) == Interleave(Skeleton(p, s), Repeat(v, |FindVersions(p, s)|))
  {
    var rest := s[h.stop..];
    var ps, vs := Skeleton(p, rest), FindVersions(p, rest);
    var front, version, behind := s[..h.start], s[h.start..h.end], s[h.end..h.stop];
    assert Skeleton(p, s) == [front] + Glue(behind, ps) && FindVersions(p, s) == [version] + vs;
    FillOne(front, behind, ps, version, vs);
    FillOne(front, behind, ps, v, Repeat(v, |vs|));
    assert Repeat(v, |vs| + 1) == [v] + Repeat(v, |vs|);
    CutAtHit(s, h, v, Rewrite(p, rest, v));
  }

  lemma CutAtHit(s: string, h: Hit, v: string, more: string)
    requires h.start <= h.end <= h.stop <= |s|
    ensures s == s[..h.start] + s[h.start..h.end] + (s[h.end..h.stop] + s[h.stop..])
    ensures SwapVersion(s[..h.stop], h, v) + more == s[..h.start] + v + (s[h.end..h.stop] + more)
  {
    var front, behind := s[..h.start], s[h.end..h.stop];
    assert SwapVersion(s[..h.stop], h, v) == front + v + behind;
    assert front + v + behind + more == front + v + (behind + more);
  }

  lemma FillOne(front: string, behind: string, ps: seq<string>, v: string, vs: seq<string>)
    requires |ps| == |vs| + 1
    ensures Interleave([front] + Glue(behind, ps), [v] + vs) == front + v + (behind + Interleave(ps, vs))
  {
    InterleaveGlue(behind, ps, vs);
    assert ([front] + Glue(behind, ps))[1..] == Glue(behind, ps) && ([v] + vs)[1..] == vs;
  }

  /* ---------- How far rewriting agrees with the original ---------- */

  lemma RewriteHead(p: SiteRow, s: string, v: string)
    requires p.WellFormed()
    ensures s == "" <==> Rewrite(p, s, v) == ""
    ensures s != "" ==> Rewrite(p, s, v)[0] == s[0]
  {
    if s != "" && HitAt(p, s).Some? {
      var h := HitAt(p, s).value;
      assert Rewrite(p, s, v)[0] == SwapVersion(s[..h.stop], h, v)[0] == s[..h.stop][0];
    }
  }

  /** Where no match starts, rewriting copies. */
  lemma {:induction false} RewriteCopies(p: SiteRow, s: string, v: string, n: nat)
    requires p.WellFormed() && n <= |s|
    requires forall m :: 0 <= m < n ==> HitAt(p, s[m..]).None?
    ensures Rewrite(p, s, v) == s[..n] + Rewrite(p, s[n..], v)
    ensures FindVersions(p, s) == FindVersions(p, s[n..])
    decreases n
  {
    if n == 0 {
      assert s[0..] == s;
    } else {
      assert s[0..] == s;
      forall m | 0 <= m < n - 1 ensures HitAt(p, s[1..][m..]).None? {
        assert s[1..][m..] == s[m + 1..];
      }
      RewriteCopies(p, s[1..], v, n - 1);
      FirstCopied(s, Rewrite(p, s[n..], v), n);
    }
  }

  lemma FirstCopied(s: string, more: string, n: nat)
    requires 0 < n <= |s|
    ensures s[1..][n - 1..] == s[n..] && [s[0]] + (s[1..][..n - 1] + more) == s[..n] + more
  {}

  /** The position of the first match, or |s| if there is none. */
  function FirstHit(p: SiteRow, s: string): (m: nat)
    requires p.WellFormed()
    ensures m <= |s|
    ensures forall i :: 0 <= i < m ==> HitAt(p, s[i..]).None?
    ensures m < |s| ==> HitAt(p, s[m..]).Some?
  {
    if s == "" || HitAt(p, s).Some? then assert s[0..] == s; 0
    else
      var m := FirstHit(p, s[1..]);
      assert forall i :: 0 < i <= |s| ==> s[i..] == s[1..][i - 1..];
      assert s[0..] == s;
      m + 1
  }

  /** Rewriting a match changes nothing before its version. */
  lemma RewriteAtHit(q: SiteRow, s: string, v: string)
    requires q.WellFormed() && Accepts(v) && s != "" && HitAt(q, s).Some?
    ensures var n, t := HitAt(q, s).value.start, Rewrite(q, s, v);
            n < |t| && t[..n] == s[..n] && IsDigit(s[n]) && IsDigit(t[n])
  {
    var h := HitAt(q, s).value;
    HitText(q, s);
    AcceptedChars(v);
    SemverChars(s[h.start..h.end]);
    var w := SwapVersion(s[..h.stop], h, v);
    assert w[..h.start] == s[..h.start] && w[h.start] == v[0];
    assert s[h.start] == s[h.start..h.end][0];
  }

  /** Rewriting `q` in `s` agrees with `s` up to its first version; there both go on with a
      digit. */
  lemma {:induction false} RewriteAgrees(q: SiteRow, s: string, v: string)
    requires q.WellFormed() && Accepts(v) && FirstHit(q, s) < |s|
    ensures var m := FirstHit(q, s);
            var n := m + HitAt(q, s[m..]).value.start;
            var t := Rewrite(q, s, v);
            m < n < |s| && n < |t| && t[..n] == s[..n] && IsDigit(s[n]) && IsDigit(t[n])
  {
    var m := FirstHit(q, s);
    RewriteCopies(q, s, v, m);
    RewriteAtHit(q, s[m..], v);
    AgreeBehind(s, m, Rewrite(q, s[m..], v), HitAt(q, s[m..]).value.start);
  }

  lemma AgreeBehind(s: string, m: nat, x: string, n: nat)
    requires m + n < |s| && n < |x| && x[..n] == s[m..][..n]
    ensures (s[..m] + x)[..m + n] == s[..m + n] && (s[..m] + x)[m + n] == x[n] && s[m + n] == s[m..][n]
  {
    assert (s[..m] + x)[..m + n] == s[..m] + x[..n];
    assert s[..m + n] == s[..m] + s[m..][..n];
  }

  /* ---------- No interference ---------- */

  /** Within a match of `p` no key of `q` begins, except the match's own. */
  lemma NoKeyInside(p: SiteRow, q: SiteRow, s: string, m: nat)
    requires p.WellFormed() && q.WellFormed() && (p == q || Unmixed(p, q))
    requires HitAt(p, s).Some? && m < |s| && q.Key() <= s[m..]
    requires m + |q.Key()| <= HitAt(p, s).value.stop
    ensures p == q && m == 0
  {
    KeyNonempty(q);
    var k := q.Key();
    assert s[m..][..|k|] == k;
    assert s[m] == s[m..][..|k|][0];
    if p == q {
      var a: nat :| q.Anchored(a);
      assert s[m + a] == s[m..][..|k|][a];
      HitAnchor(p, s, a, m + a);
    } else {
      HitAvoids(p, s, k[0]);
    }
  }

  lemma RewriteNothing(q: SiteRow, s: string, v: string)
    requires q.WellFormed() && FirstHit(q, s) == |s|
    ensures Rewrite(q, s, v) == s
  {
    RewriteCopies(q, s, v, |s|);
    assert s[..|s|] + "" == s;
  }

  /** If `s` and `t` agree up to `n`, where `t` goes on with a digit, then a match of `p` at the
      head of `t` that ends by `n` is a match of `s`. */
  lemma HitBefore(p: SiteRow, s: string, t: string, n: nat)
    requires p.WellFormed() && n < |s| && n < |t| && t[..n] == s[..n] && IsDigit(t[n])
    requires HitAt(p, t).Some? && HitAt(p, t).value.stop <= n
    ensures HitAt(p, s).Some?
  {
    var g := HitAt(p, t).value;
    HitText(p, t);
    assert t[..g.stop] == t[..n][..g.stop] == s[..n][..g.stop];
    if g.stop < n {
      assert t[g.stop] == t[..n][g.stop] == s[..n][g.stop] == s[g.stop];
    }
    HitLocal(p, t, s);
  }

  /** A text without a match of `p` at its head has none after `q` has been rewritten in it. */
  lemma {:induction false} NoNewHit(p: SiteRow, q: SiteRow, s: string, v: string)
    requires p.WellFormed() && q.WellFormed() && (p == q || Unmixed(p, q)) && Accepts(v)
    requires s != "" && HitAt(p, s).None? && HitAt(q, s).None?
    ensures HitAt(p, Rewrite(q, s, v)).None?
  {
    var t := Rewrite(q, s, v);
    assert s[0..] == s;
    if HitAt(p, t).Some? {
      var m := FirstHit(q, s);
      if m == |s| {
        RewriteNothing(q, s, v);
      } else {
        RewriteAgrees(q, s, v);
        var n := m + HitAt(q, s[m..]).value.start;
        if HitAt(p, t).value.stop <= n {
          HitBefore(p, s, t, n);
        } else {
          KeyCopied(q, s, t, m, n);
          NoKeyInside(p, q, t, m);
        }
      }
    }
  }

  lemma KeyCopied(q: SiteRow, s: string, t: string, m: nat, n: nat)
    requires q.WellFormed() && m < n <= |s| && n <= |t| && t[..n] == s[..n]
    requires HitAt(q, s[m..]).Some? && n == m + HitAt(q, s[m..]).value.start
    ensures q.Key() <= t[m..] && m + |q.Key()| <= n
  {
    HitText(q, s[m..]);
    var k := |q.Key()|;
    assert s[m..][..k] == s[..n][m..m + k] == t[..n][m..m + k] == t[m..][..k];
  }

  /** Where the first character of its key does not occur, a site has no match. */
  lemma NoHitWithoutHead(q: SiteRow, s: string, n: nat)
    requires q.WellFormed() && n <= |s| && q.Key() != ""
    requires forall j :: 0 <= j < n ==> s[j] != q.Key()[0]
    ensures forall m :: 0 <= m < n ==> HitAt(q, s[m..]).None?
  {
    forall m | 0 <= m < n ensures HitAt(q, s[m..]).None? {
      if HitAt(q, s[m..]).Some? {
        HitText(q, s[m..]);
      }
    }
  }

  /** Rewriting `q` behind or beside a match of `p` keeps the match. */
  lemma HitSurvives(p: SiteRow, q: SiteRow, s: string, v: string)
    requires p.WellFormed() && q.WellFormed() && p != q && Unmixed(p, q)
    requires s != "" && HitAt(p, s).Some?
    ensures var h := HitAt(p, s).value;
            HitAt(p, Rewrite(q, s, v)) == Some(h) &&
            Rewrite(q, s, v) == s[..h.stop] + Rewrite(q, s[h.stop..], v) &&
            FindVersions(q, s) == FindVersions(q, s[h.stop..])
  {
    var h := HitAt(p, s).value;
    KeyNonempty(q);
    HitAvoids(p, s, q.Key()[0]);
    NoHitWithoutHead(q, s, h.stop);
    RewriteCopies(q, s, v, h.stop);
    HitText(p, s);
    RewriteHead(q, s[h.stop..], v);
    var t := Rewrite(q, s, v);
    assert t[h.stop..] == Rewrite(q, s[h.stop..], v);
    HitLocal(p, s, t);
  }

  /** A match with its version replaced matches again, with the new version. */
  lemma {:induction false} HitRewritten(p: SiteRow, s: string, v: string)
    requires p.WellFormed() && Semver(v) && s != "" && HitAt(p, s).Some?
    ensures var h := HitAt(p, s).value;
            var t := Rewrite(p, s, v);
            var g := Hit(h.start, h.start + |v|, h.start + |v| + h.stop - h.end);
            HitAt(p, t) == Some(g) && t[g.start..g.end] == v &&
            t[..g.start] == s[..h.start] && t[g.end..g.stop] == s[h.end..h.stop] &&
            t[g.stop..] == Rewrite(p, s[h.stop..], v)
  {
    var h := HitAt(p, s).value;
    var t, rest := Rewrite(p, s, v), Rewrite(p, s[h.stop..], v);
    var w := SwapVersion(s[..h.stop], h, v);
    assert w == s[..h.start] + v + s[h.end..h.stop];
    assert t == w + rest;
    HitText(p, s);
    RewriteHead(p, s[h.stop..], v);
    assert t[|w|..] == rest;
    HitReplace(p, s, t, v);
    assert t[..|w|] == w;
    assert t[h.start..h.start + |v|] == w[h.start..h.start + |v|];
  }

  /* ---------- Rescanning after a rewrite ---------- */

  /** Scanning the rewritten text finds as many versions as before, all of them the new one,
      in the same skeleton. */
  lemma {:induction false} RescanSame(p: SiteRow, s: string, v: string)
    requires p.WellFormed() && Semver(v)
    ensures FindVersions(p, Rewrite(p, s, v)) == Repeat(v, |FindVersions(p, s)|)
    ensures Skeleton(p, Rewrite(p, s, v)) == Skeleton(p, s)
    decreases |s|
  {
    if s != "" {
      RewriteHead(p, s, v);
      var t := Rewrite(p, s, v);
      match HitAt(p, s)
      case Some(h) =>
        HitRewritten(p, s, v);
        RescanSame(p, s[h.stop..], v);
        assert Repeat(v, |FindVersions(p, s)|) == [v] + Repeat(v, |FindVersions(p, s[h.stop..])|);
      case None =>
        NoNewHit(p, p, s, v);
        assert t[1..] == Rewrite(p, s[1..], v);
        RescanSame(p, s[1..], v);
    }
  }

  /** Rewriting another site of the same file does not change what this one finds. */
  lemma {:induction false} RescanOther(p: SiteRow, q: SiteRow, s: string, v: string)
    requires p.WellFormed() && q.WellFormed() && p != q && Unmixed(p, q) && Semver(v)
    ensures FindVersions(p, Rewrite(q, s, v)) == FindVersions(p, s)
    decreases |s|
  {
    if s != "" {
      if HitAt(p, s).Some? {
        OtherBehindHit(p, q, s, v);
        RescanOther(p, q, s[HitAt(p, s).value.stop..], v);
      } else if HitAt(q, s).Some? {
        OtherRewritten(p, q, s, v);
        RescanOther(p, q, s[HitAt(q, s).value.stop..], v);
      } else {
        RewriteHead(q, s, v);
        NoNewHit(p, q, s, v);
        assert Rewrite(q, s, v)[1..] == Rewrite(q, s[1..], v);
        RescanOther(p, q, s[1..], v);
      }
    }
  }

  /** At a match of `p`, rewriting `q` goes on behind it. */
  lemma {:induction false} OtherBehindHit(p: SiteRow, q: SiteRow, s: string, v: string)
    requires p.WellFormed() && q.WellFormed() && p != q && Unmixed(p, q) && s != "" && HitAt(p, s).Some?
    ensures var h := HitAt(p, s).value;
            FindVersions(p, Rewrite(q, s, v)) == [s[h.start..h.end]] + FindVersions(p, Rewrite(q, s[h.stop..], v))
  {
    var h, t := HitAt(p, s).value, Rewrite(q, s, v);
    HitSurvives(p, q, s, v);
    assert t[..h.stop] == s[..h.stop] && t[h.stop..] == Rewrite(q, s[h.stop..], v);
    assert t[h.start..h.end] == t[..h.stop][h.start..h.end] == s[h.start..h.end];
  }

  /** A match of `q` holds nothing for `p`, before and after it is rewritten. */
  lemma OtherRewritten(p: SiteRow, q: SiteRow, s: string, v: string)
    requires p.WellFormed() && q.WellFormed() && p != q && Unmixed(p, q) && Semver(v) && s != "" && HitAt(q, s).Some?
    ensures var h := HitAt(q, s).value;
            FindVersions(p, s) == FindVersions(p, s[h.stop..]) &&
            FindVersions(p, Rewrite(q, s, v)) == FindVersions(p, Rewrite(q, s[h.stop..], v))
  {
    RewriteHead(q, s, v);
    HitRewritten(q, s, v);
    HitSurvives(q, p, s, v);
    HitSurvives(q, p, Rewrite(q, s, v), v);
  }

  /* ---------- Order of rewrites ---------- */

  /** The last rewrite of a site wins. */
  lemma LastRewriteWins(p: SiteRow, s: string, v: string, w: string)
    requires p.WellFormed() && Semver(v)
    ensures Rewrite(p, Rewrite(p, s, v), w) == Rewrite(p, s, w)
  {
    RescanSame(p, s, v);
    RewriteFillsSkeleton(p, s, w);
    RewriteFillsSkeleton(p, Rewrite(p, s, v), w);
  }

  /** Rewrites of two sites of a file commute. */
  lemma {:induction false} RewritesCommute(p: SiteRow, q: SiteRow, s: string, v: string, w: string)
    requires p.WellFormed() && q.WellFormed() && p != q && Unmixed(p, q) && Accepts(v) && Accepts(w)
    ensures Rewrite(p, Rewrite(q, s, v), w) == Rewrite(q, Rewrite(p, s, w), v)
    decreases |s|
  {
    if s != "" {
      if HitAt(p, s).Some? {
        CommuteAtHit(p, q, s, v, w);
        RewritesCommute(p, q, s[HitAt(p, s).value.stop..], v, w);
      } else if HitAt(q, s).Some? {
        CommuteAtHit(q, p, s, w, v);
        RewritesCommute(p, q, s[HitAt(q, s).value.stop..], v, w);
      } else {
        NoNewHit(p, q, s, v);
        NoNewHit(q, p, s, w);
        assert Rewrite(q, s, v)[1..] == Rewrite(q, s[1..], v);
        assert Rewrite(p, s, w)[1..] == Rewrite(p, s[1..], w);
        RewritesCommute(p, q, s[1..], v, w);
      }
    }
  }

  /** At a match of `p` both orders produce the same rewritten match and go on behind it. */
  lemma {:induction false} CommuteAtHit(p: SiteRow, q: SiteRow, s: string, v: string, w: string)
    requires p.WellFormed() && q.WellFormed() && p != q && Unmixed(p, q) && Accepts(w)
    requires s != "" && HitAt(p, s).Some?
    ensures var h := HitAt(p, s).value;
            var front := SwapVersion(s[..h.stop], h, w);
            Rewrite(p, Rewrite(q, s, v), w) == front + Rewrite(p, Rewrite(q, s[h.stop..], v), w) &&
            Rewrite(q, Rewrite(p, s, w), v) == front + Rewrite(q, Rewrite(p, s[h.stop..], w), v)
  {
    var h := HitAt(p, s).value;
    var front := SwapVersion(s[..h.stop], h, w);
    var t := Rewrite(q, s, v);
    HitSurvives(p, q, s, v);
    assert t[..h.stop] == s[..h.stop] && t[h.stop..] == Rewrite(q, s[h.stop..], v);
    var r := Rewrite(p, s, w);
    SwapKeyless(p, q, s, w);
    assert r[..|front|] == front && r[|front|..] == Rewrite(p, s[h.stop..], w);
    KeyNonempty(q);
    assert forall j :: 0 <= j < |front| ==> r[j] == front[j];
    NoHitWithoutHead(q, r, |front|);
    RewriteCopies(q, r, v, |front|);
  }

  /** Whatever version is put into a match of `p`, no match of `q` can begin in it. */
  lemma SwapKeyless(p: SiteRow, q: SiteRow, s: string, w: string)
    requires p.WellFormed() && q.WellFormed() && Unmixed(p, q) && Accepts(w) && HitAt(p, s).Some?
    ensures var h := HitAt(p, s).value;
            var front := SwapVersion(s[..h.stop], h, w);
            q.Key() != "" && forall j :: 0 <= j < |front| ==> front[j] != q.Key()[0]
  {
    var h := HitAt(p, s).value;
    var front, c := SwapVersion(s[..h.stop], h, w), (KeyNonempty(q); q.Key()[0]);
    HitAvoids(p, s, c);
    VersionKeyless(w, c);
    var whole := s[..h.stop];
    forall j | 0 <= j < |front| ensures front[j] != c {
      if j < h.start {
        assert front[j] == s[j];
      } else if j < h.start + |w| {
        assert front[j] == w[j - h.start];
      } else {
        assert front[j] == whole[h.end..][j - h.start - |w|] == s[h.end + (j - h.start - |w|)];
      }
    }
  }

  lemma VersionKeyless(w: string, c: char)
    requires Accepts(w) && c != '\n' && forall k :: 0 <= k < |VersionAtoms()| ==> Excludes(VersionAtoms()[k], c)
    ensures forall j :: 0 <= j < |w| ==> w[j] != c
  {
    AcceptedChars(w);
    assert Excludes(VersionAtoms()[0], c) && Excludes(VersionAtoms()[1], c);
    assert VersionAtoms()[1] == OneOf(["."]) && "." in ["."] && '.' in ".";
    assert !InClass(Digit, c) && c != '.';
  }

  /* ---------- Line breaks ---------- */

  /** A version has no line break, so rewriting adds one for every match if the new version ends in
      one, and none otherwise. */
  lemma {:induction false} RewriteNewlines(p: SiteRow, s: string, v: string)
    requires p.WellFormed() && Accepts(v)
    ensures Newlines(Rewrite(p, s, v)) == Newlines(s) + if Semver(v) then 0 else |FindVersions(p, s)|
    decreases |s|
  {
    if s != "" {
      match HitAt(p, s)
      case Some(h) =>
        RewriteNewlines(p, s[h.stop..], v);
        HitNewlines(p, s, v, h);
      case None =>
        RewriteNewlines(p, s[1..], v);
        CopyNewlines(p, s, v);
    }
  }

  lemma CopyNewlines(p: SiteRow, s: string, v: string)
    requires p.WellFormed() && s != "" && HitAt(p, s).None?
    ensures Newlines(s) == Newlines(s[..1]) + Newlines(s[1..])
    ensures Newlines(Rewrite(p, s, v)) == Newlines(s[..1]) + Newlines(Rewrite(p, s[1..], v))
  {
    NewlinesAdd(s[..1], s[1..]);
    NewlinesAdd(s[..1], Rewrite(p, s[1..], v));
    assert s == s[..1] + s[1..] && s[..1] == [s[0]];
  }

  lemma HitNewlines(p: SiteRow, s: string, v: string, h: Hit)
    requires p.WellFormed() && Accepts(v) && s != "" && HitAt(p, s) == Some(h)
    ensures Newlines(s) == Newlines(s[..h.stop]) + Newlines(s[h.stop..])
    ensures Newlines(Rewrite(p, s, v)) ==
            Newlines(s[..h.stop]) + (if Semver(v) then 0 else 1) + Newlines(Rewrite(p, s[h.stop..], v))
  {
    SwapNewlines(p, s, v);
    NewlinesAdd(s[..h.stop], s[h.stop..]);
    NewlinesAdd(SwapVersion(s[..h.stop], h, v), Rewrite(p, s[h.stop..], v));
    assert s == s[..h.stop] + s[h.stop..];
  }

  function Newlines(s: string): nat { multiset(s)['\n'] }

  lemma NewlinesAdd(a: string, b: string)
    ensures Newlines(a + b) == Newlines(a) + Newlines(b)
  {}

  lemma SwapNewlines(p: SiteRow, s: string, v: string)
    requires p.WellFormed() && Accepts(v) && HitAt(p, s).Some?
    ensures var h := HitAt(p, s).value;
            Newlines(SwapVersion(s[..h.stop], h, v)) == Newlines(s[..h.stop]) + if Semver(v) then 0 else 1
  {
    var h := HitAt(p, s).value;
    HitText(p, s);
    VersionNewlines(s[h.start..h.end]);
    VersionNewlines(v);
    assert s[..h.stop] == s[..h.start] + s[h.start..h.end] + s[h.end..h.stop];
    assert SwapVersion(s[..h.stop], h, v) == s[..h.start] + v + s[h.end..h.stop];
  }

  lemma VersionNewlines(v: string)
    requires Accepts(v)
    ensures Newlines(v) == if Semver(v) then 0 else 1
  {
    AcceptedChars(v);
    if Semver(v) {
      assert '\n' !in v;
    } else {
      var x := v[..|v| - 1];
      assert '\n' !in x && v == x + ['\n'];
    }
  }
}
