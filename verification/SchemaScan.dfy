/** Reading operations out of the generated `schema.d.ts`: the scanners the drift check is made of. */
module SchemaScan {
  import opened Text
  import opened Regex

  const MARKER := "export interface paths"

  const METHODS := ["get", "post", "put", "patch", "delete", "head", "options"]

  /** `\n\s+"/([^"]+)":\s*\{` */
  function PathAtoms(): seq<Atom> {
    [Lit("\n"), Run(Space, 1), Lit("\"/"), Run(NotQuote, 1), Lit("\":"), Run(Space, 0), Lit("{")]
  }

  /** `^\s+(get|post|...):\s*(?:operations\[|\{)` without the leading `^`. */
  function MethodAtoms(): seq<Atom> {
    [Run(Space, 1), OneOf(METHODS), Lit(":"), Run(Space, 0), OneOf(["operations[", "{"])]
  }

  /** The match of `atoms` at the head of `s`, with atom `g` as its group. */
  function HitOf(atoms: seq<Atom>, g: nat, s: string): (r: Option<Hit>)
    requires g < |atoms|
    ensures r.Some? ==> r.value.start <= r.value.end <= r.value.stop <= |s|
  {
    match Match(atoms, s)
    case None => None
    case Some(w) =>
      MatchSound(atoms, s);
      var h := Hit(Sum(w[..g]), Sum(w[..g + 1]), Sum(w));
      SumConcat(w[..g + 1], w[g + 1..]);
      SumConcat(w[..g], [w[g]]);
      assert w == w[..g + 1] + w[g + 1..] && w[..g + 1] == w[..g] + [w[g]];
      Some(h)
  }

  /* ---------- Splitting at path keys ---------- */

  /** `re.split` with one group: the text before the first key, and for every key the text up to
      the next one. */
  function Parts(key: seq<Atom>, s: string): (string, seq<(string, string)>)
    requires |key| > 3
    decreases |s|
  {
    if s == "" then ("", [])
    else if HitOf(key, 3, s).Some? && HitOf(key, 3, s).value.stop > 0 then
      var h := HitOf(key, 3, s).value;
      var rest := Parts(key, s[h.stop..]);
      ("", [(s[h.start..h.end], rest.0)] + rest.1)
    else
      var rest := Parts(key, s[1..]);
      ([s[0]] + rest.0, rest.1)
  }

  /* ---------- Braces ---------- */

  /** The position of the brace that closes depth `d`. */
  function CloseAt(s: string, d: nat): (r: Option<nat>)
    requires d > 0
    ensures r.Some? ==> r.value < |s| && s[r.value] == '}'
  {
    if s == "" then None
    else if s[0] == '}' && d == 1 then Some(0)
    else
      var d' := if s[0] == '{' then d + 1 else if s[0] == '}' then d - 1 else d;
      match CloseAt(s[1..], d')
      case None => None
      case Some(i) => Some(i + 1)
  }

  /** The part of a block that belongs to its path; the whole block when no closing brace is
      found, or when it is the very first character. */
  function PathBody(block: string): string {
    match CloseAt(block, 1)
    case None => block
    case Some(cut) => if cut != 0 then block[..cut] else block
  }

  /* ---------- Methods ---------- */

  /** The implemented methods, in order. `bol` says that `s` begins at the start of a line. */
  function MethodsIn(impl: seq<Atom>, s: string, bol: bool): seq<string>
    requires |impl| > 1
    decreases |s|
  {
    if s == "" then []
    else if bol && HitOf(impl, 1, s).Some? && HitOf(impl, 1, s).value.stop > 0 then
      var h := HitOf(impl, 1, s).value;
      [s[h.start..h.end]] + MethodsIn(impl, s[h.stop..], s[h.stop - 1] == '\n')
    else MethodsIn(impl, s[1..], s[0] == '\n')
  }

  function OpName(m: string, path: string): string { Upper(m) + " " + path }

  function BlockOps(path: string, ms: seq<string>): set<string> {
    set m | m in ms :: OpName(m, "/" + path)
  }

  function AllOps(impl: seq<Atom>, blocks: seq<(string, string)>): set<string>
    requires |impl| > 1
  {
    if blocks == [] then {}
    else BlockOps(blocks[0].0, MethodsIn(impl, PathBody(blocks[0].1), true)) + AllOps(impl, blocks[1..])
  }

  /** From an opening brace to the one that closes it; only the opening brace if none does. */
  function Enclosed(s: string): string
    requires s != ""
  {
    match CloseAt(s[1..], 1)
    case None => s[..1]
    case Some(n) => s[..n + 2]
  }

  /** The brace that opens the paths interface. */
  function OpeningBrace(text: string): (r: Option<nat>)
    ensures r.Some? ==> r.value < |text| && text[r.value] == '{'
  {
    match Find(text, MARKER)
    case None => None
    case Some(start) =>
      match Find(text[start..], "{")
      case None => None
      case Some(i) =>
        assert text[start..][i..i + 1] == "{";
        Some(start + i)
  }

  /** The body of the paths interface, braces included; only the opening brace if it is never closed. */
  function SchemaBody(text: string): Option<string> {
    match OpeningBrace(text)
    case None => None
    case Some(brace) => Some(Enclosed(text[brace..]))
  }

  /** `operations_from_schema_dts` */
  function SchemaOps(text: string): set<string> {
    match SchemaBody(text)
    case None => {}
    case Some(body) => AllOps(MethodAtoms(), Parts(PathAtoms(), body).1)
  }

  function Later(r: Option<nat>, k: nat): Option<nat> {
    if r.None? then None else Some(r.value + k)
  }

  /* ---------- The same, as the script runs it ---------- */

  /** The brace loop, over the text behind an opening brace. */
  method CloseBrace(s: string) returns (close: Option<nat>)
    ensures close == CloseAt(s, 1)
  {
    var depth := 1;
    assert s[0..] == s;
    for i := 0 to |s|
      invariant depth >= 1 && CloseAt(s, 1) == Later(CloseAt(s[i..], depth), i)
    {
      assert s[i..][1..] == s[i + 1..];
      if s[i] == '{' {
        depth := depth + 1;
      } else if s[i] == '}' {
        depth := depth - 1;
        if depth == 0 {
          return Some(i);
        }
      }
    }
    close := None;
  }

  /** The end of the interface; its opening brace if it is never closed. */
  method MatchBrace(text: string, braceStart: nat) returns (end: nat)
    requires braceStart < |text| && text[braceStart] == '{'
    ensures braceStart <= end < |text|
    ensures text[braceStart..end + 1] == Enclosed(text[braceStart..])
  {
    ghost var from := text[braceStart..];
    assert from[1..] == text[braceStart + 1..];
    var close := CloseBrace(text[braceStart + 1..]);
    end := if close.Some? then braceStart + 1 + close.value else braceStart;
    assert text[braceStart..end + 1] == from[..end + 1 - braceStart];
  }

  /** One block up to its closing brace, with `cut` left at 0 when it is not closed. */
  method CutBlock(block: string) returns (body: string)
    ensures body == PathBody(block)
  {
    var close := CloseBrace(block);
    var cut := if close.Some? then close.value else 0;
    body := if cut != 0 then block[..cut] else block;
  }

  method InterfaceBody(text: string) returns (body: Option<string>)
    ensures body == SchemaBody(text)
  {
    var brace := OpeningBrace(text);
    if brace == None {
      return None;
    }
    var end := MatchBrace(text, brace.value);
    body := Some(text[brace.value..end + 1]);
  }

  /** `operations_from_schema_dts` as the script runs it. */
  method OperationsFromSchemaDts(text: string) returns (ops: set<string>)
    ensures ops == SchemaOps(text)
  {
    ops := {};
    var body := InterfaceBody(text);
    if body == None {
      return;
    }
    var key, impl := PathAtoms(), MethodAtoms();
    var blocks := Parts(key, body.value).1;
    ops := CollectOps(impl, blocks);
  }

  /** The loop over the blocks. */
  method CollectOps(impl: seq<Atom>, blocks: seq<(string, string)>) returns (ops: set<string>)
    requires |impl| > 1
    ensures ops == AllOps(impl, blocks)
  {
    ops := {};
    assert blocks[0..] == blocks;
    for i := 0 to |blocks|
      invariant ops + AllOps(impl, blocks[i..]) == AllOps(impl, blocks)
    {
      assert blocks[i..][1..] == blocks[i + 1..];
      var pathBody := CutBlock(blocks[i].1);
      ops := ops + BlockOps(blocks[i].0, MethodsIn(impl, pathBody, true));
    }
  }
}
