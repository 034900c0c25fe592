/** Python's `repr` of strings and lists of strings, and that it can be told where a string ends. */
module Repr {

  function HexDigit(n: nat): char
    requires n < 16
  {
    "0123456789abcdef"[n]
  }

  /** One character between quotes `q`. */
  function Escape(c: char, q: char): string {
    if c == '\\' || c == q then ['\\', c]
    else if c == '\n' then "\\n"
    else if c == '\r' then "\\r"
    else if c == '\t' then "\\t"
    else if c < ' ' || c == '\U{7f}' then ['\\', 'x', HexDigit(c as nat / 16), HexDigit(c as nat % 16)]
    else [c]
  }

  function Escaped(s: string, q: char): string {
    if s == "" then "" else Escape(s[0], q) + Escaped(s[1..], q)
  }

  function QuoteFor(s: string): char { if '\'' in s && '"' !in s then '"' else '\'' }

  /** `repr` of a string. */
  function Quoted(s: string): string { [QuoteFor(s)] + (Escaped(s, QuoteFor(s)) + [QuoteFor(s)]) }

  function Joined(xs: seq<string>): string {
    if xs == [] then ""
    else if |xs| == 1 then Quoted(xs[0])
    else Quoted(xs[0]) + (", " + Joined(xs[1..]))
  }

  /** `repr` of a list of strings. */
  function QuotedList(xs: seq<string>): string { "[" + (Joined(xs) + "]") }

  lemma HexDigitsDiffer(m: nat, n: nat)
    requires m < 16 && n < 16 && HexDigit(m) == HexDigit(n)
    ensures m == n
  {}

  /** The first escaped character can be split off. */
  lemma EscapeSplits(c: char, d: char, q: char, x: string, y: string)
    requires (q == '\'' || q == '"') && Escape(c, q) + x == Escape(d, q) + y
    ensures c == d && x == y
  {
    var a, b := Escape(c, q), Escape(d, q);
    var s := a + x;
    assert s[0] == a[0] == b[0];
    if a[0] == '\\' {
      assert s[1] == a[1] == b[1];
      if a[1] == 'x' {
        assert s[2] == a[2] == b[2] && s[3] == a[3] == b[3];
        HexDigitsDiffer(c as nat / 16, d as nat / 16);
        HexDigitsDiffer(c as nat % 16, d as nat % 16);
      }
    }
    assert x == s[|a|..] && y == s[|b|..];
  }

  /** The closing quote stands first only behind nothing. */
  lemma EscapedHead(a: string, q: char, x: string)
    requires q == '\'' || q == '"'
    ensures (Escaped(a, q) + ([q] + x))[0] == q <==> a == ""
  {
    if a != "" {
      assert (Escaped(a, q) + ([q] + x))[0] == Escape(a[0], q)[0];
    }
  }

  lemma EscapedCons(a: string, q: char, e: string)
    requires a != ""
    ensures Escaped(a, q) + e == Escape(a[0], q) + (Escaped(a[1..], q) + e)
  {}

  lemma {:induction false} EscapedSplits(a: string, b: string, q: char, x: string, y: string)
    requires (q == '\'' || q == '"') && Escaped(a, q) + ([q] + x) == Escaped(b, q) + ([q] + y)
    ensures a == b && x == y
    decreases |a|
  {
    EscapedHead(a, q, x);
    EscapedHead(b, q, y);
    if a == "" {
      DropOne(q, x);
      DropOne(q, y);
    } else {
      EscapedCons(a, q, [q] + x);
      EscapedCons(b, q, [q] + y);
      EscapeSplits(a[0], b[0], q, Escaped(a[1..], q) + ([q] + x), Escaped(b[1..], q) + ([q] + y));
      EscapedSplits(a[1..], b[1..], q, x, y);
      assert a == [a[0]] + a[1..] && b == [b[0]] + b[1..];
    }
  }

  lemma DropOne(q: char, x: string)
    ensures ([q] + x)[1..] == x && "" + ([q] + x) == [q] + x
  {}

  lemma QuotedOpens(a: string, x: string)
    ensures Quoted(a) + x == [QuoteFor(a)] + (Escaped(a, QuoteFor(a)) + ([QuoteFor(a)] + x))
  {}

  /** A quoted string can be split off: where it ends can be seen. */
  lemma QuotedSplits(a: string, b: string, x: string, y: string)
    requires Quoted(a) + x == Quoted(b) + y
    ensures a == b && x == y
  {
    var q := QuoteFor(a);
    QuotedOpens(a, x);
    QuotedOpens(b, y);
    assert (Quoted(a) + x)[0] == q && (Quoted(b) + y)[0] == QuoteFor(b);
    DropOne(q, Escaped(a, q) + ([q] + x));
    DropOne(q, Escaped(b, q) + ([q] + y));
    EscapedSplits(a, b, q, x, y);
  }
}
