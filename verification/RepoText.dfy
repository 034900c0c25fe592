/** The text that stands for the error of a directory taken for a file: Python's text of a dictionary,
    written out. */
module RepoText {
  import opened Text
  import opened Repr
  import opened RepoTree
  import opened RepoListing

  /* ---------- Strings ---------- */

  /** A character that stands for itself between single quotes. */
  predicate Plain(c: char) { c >= ' ' && c != '\'' && c != '\\' && c != '\U{7f}' }

  /** A plain string is put between single quotes. */
  lemma PlainQuoted(s: string)
    requires forall c :: c in s ==> Plain(c)
    ensures Quoted(s) == "'" + s + "'"
  {
    PlainEscaped(s, '\'');
  }

  lemma {:induction false} PlainEscaped(s: string, q: char)
    requires q == '\'' && forall c :: c in s ==> Plain(c)
    ensures Escaped(s, q) == s
  {
    if s != "" {
      assert s[0] in s && forall c :: c in s[1..] ==> c in s;
      PlainEscaped(s[1..], q);
      PlainOne(s[0], q);
      assert s == [s[0]] + s[1..];
    }
  }

  lemma PlainOne(c: char, q: char)
    requires Plain(c) && q == '\''
    ensures Escape(c, q) == [c]
  {}

  /** One with single quotes and no double quotes is put between double quotes, any other between single
      ones. */
  lemma QuotesAre(s: string)
    ensures Quoted(s) != ""
    ensures Quoted(s)[0] == Quoted(s)[|Quoted(s)| - 1] == if '\'' in s && '"' !in s then '"' else '\''
  {}

  /** What does not stand for itself. */
  lemma EscapesAre(q: char)
    requires q == '\'' || q == '"'
    ensures Escape('\\', q) == "\\\\" && Escape(q, q) == ['\\', q] && Escape('\n', q) == "\\n"
    ensures Escape('\r', q) == "\\r" && Escape('\t', q) == "\\t"
    ensures Escape('\U{0}', q) == "\\x00" && Escape('\U{1f}', q) == "\\x1f" && Escape('\U{7f}', q) == "\\x7f"
    ensures Escape(if q == '"' then '\'' else '"', q) == [if q == '"' then '\'' else '"']
  {}

  /** Texts with a comma and a blank between them. */
  function Separated(parts: seq<string>): string {
    if parts == [] then ""
    else parts[0] + if |parts| == 1 then "" else ", " + Separated(parts[1..])
  }

  function AllQuoted(xs: seq<string>): (r: seq<string>)
    ensures |r| == |xs| && forall i :: 0 <= i < |r| ==> r[i] == Quoted(xs[i])
  {
    seq(|xs|, i requires 0 <= i < |xs| => Quoted(xs[i]))
  }

  lemma {:induction false} JoinedIs(xs: seq<string>)
    ensures Joined(xs) == Separated(AllQuoted(xs))
  {
    if |xs| > 1 {
      JoinedIs(xs[1..]);
      assert AllQuoted(xs)[1..] == AllQuoted(xs[1..]);
    } else if |xs| == 1 {
      assert Quoted(xs[0]) + "" == Quoted(xs[0]);
    }
  }

  /* ---------- Dictionaries ---------- */

  /** A list of strings. */
  function ListText(xs: seq<string>): string { "[" + (Separated(AllQuoted(xs)) + "]") }

  /** The symbols of a file, as a dictionary. */
  lemma SymbolsTextIs(s: Symbols)
    ensures SymbolsText(s) ==
            "{'classes': " + ListText(s.classes) + ", 'functions': " + ListText(s.functions) +
            (if s.error.Some? then ", 'error': " + Quoted(s.error.value) else "") + "}"
  {
    JoinedIs(s.classes);
    JoinedIs(s.functions);
  }

  /** The entries of a directory, each with its key. */
  function Pairs(h: Heap, o: Orders, d: nat, names: seq<string>): (r: seq<string>)
    requires Valid(h) && Ordered(h, o) && d < |h| && forall n :: n in names ==> n in h[d]
    ensures |r| == |names|
    ensures forall i :: 0 <= i < |r| ==>
              names[i] in names && r[i] == Quoted(names[i]) + (": " + EntryText(h, o, d, names[i]))
  {
    seq(|names|, i requires 0 <= i < |names| =>
      assert names[i] in names;
      Quoted(names[i]) + (": " + EntryText(h, o, d, names[i])))
  }

  /** A directory is its entries, in insertion order, with their keys quoted. */
  lemma DictTextIs(h: Heap, o: Orders, d: nat)
    requires Valid(h) && Ordered(h, o) && d < |h|
    ensures DictText(h, o, d) == "{" + (Separated(Pairs(h, o, d, o[d])) + "}")
  {
    ItemsTextIs(h, o, d, o[d]);
  }

  lemma {:induction false} ItemsTextIs(h: Heap, o: Orders, d: nat, names: seq<string>)
    requires Valid(h) && Ordered(h, o) && d < |h| && forall n :: n in names ==> n in h[d]
    ensures ItemsText(h, o, d, names) == Separated(Pairs(h, o, d, names))
  {
    if names != [] {
      assert names[0] in names && forall n :: n in names[1..] ==> n in names;
      ItemsTextIs(h, o, d, names[1..]);
      assert Pairs(h, o, d, names)[1..] == Pairs(h, o, d, names[1..]);
      var more := if |names| == 1 then "" else ", " + ItemsText(h, o, d, names[1..]);
      assert MoreText(h, o, d, names[1..]) == more;
      Regrouped4(Quoted(names[0]), ": ", EntryText(h, o, d, names[0]), more);
    }
  }

  lemma Regrouped4(a: string, b: string, c: string, d: string)
    ensures a + (b + (c + d)) == a + (b + c) + d
  {}

  /* ---------- What a directory poses with ---------- */

  /** The keys of what stands under a name, in insertion order: those of a directory, or those of the
      symbols of a file. */
  ghost predicate KeysFor(h: Heap, o: Orders, d: nat, name: string, keys: seq<string>)
    requires |o| == |h| && d < |h|
  {
    if name !in h[d] then keys == []
    else
      match h[d][name]
      case File(s) =>
        keys == if s.error.Some? then ["classes", "functions", "error"] else ["classes", "functions"]
      case Dir(id) => id < |h| && keys == o[id]
  }

  /** A directory taken for a file is printed with the keys under `classes` as its classes, those under
      `functions` as its functions, and the text of what stands under `error`, if that is not empty. */
  lemma PosingIs(h: Heap, o: Orders, d: nat)
    requires Valid(h) && Ordered(h, o) && d < |h|
    ensures KeysFor(h, o, d, "classes", Posing(h, o, d).classes)
    ensures KeysFor(h, o, d, "functions", Posing(h, o, d).functions)
    ensures KeysFor(h, o, d, "error", []) ==> Posing(h, o, d).error == None
    ensures !KeysFor(h, o, d, "error", []) ==>
              "error" in h[d] && Posing(h, o, d).error == Some(EntryText(h, o, d, "error"))
  {
    KeysUnderIs(h, o, d, "classes");
    KeysUnderIs(h, o, d, "functions");
    KeysUnderIs(h, o, d, "error");
  }

  lemma KeysUnderIs(h: Heap, o: Orders, d: nat, name: string)
    requires Valid(h) && Ordered(h, o) && d < |h|
    ensures forall keys :: KeysFor(h, o, d, name, keys) <==> keys == KeysUnder(h, o, d, name)
  {
    if name in h[d] && h[d][name].Dir? {
      assert Refers(h, d, name, h[d][name].id);
    }
  }
}
