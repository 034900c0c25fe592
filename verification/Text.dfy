/** Strings as the scripts see them: ASCII character classes and substring search. */
module Text {

  datatype Option<+T> = None | Some(value: T)

  predicate IsDigit(c: char) { '0' <= c <= '9' }

  /** The ASCII characters that Python's `\s` and `str.strip` treat as white space. */
  predicate IsSpace(c: char) {
    c == ' ' || '\t' <= c <= '\r' || '\U{1c}' <= c <= '\U{1f}'
  }

  lemma SpacesAre(c: char)
    ensures IsSpace(c) <==>
            c in [' ', '\t', '\n', '\U{b}', '\U{c}', '\r', '\U{1c}', '\U{1d}', '\U{1e}', '\U{1f}']
  {}

  function Lower(s: string): (r: string)
    ensures |r| == |s|
  {
    seq(|s|, i requires 0 <= i < |s| => if 'A' <= s[i] <= 'Z' then ((s[i] as int) + 32) as char else s[i])
  }

  function Upper(s: string): (r: string)
    ensures |r| == |s|
  {
    seq(|s|, i requires 0 <= i < |s| => if 'a' <= s[i] <= 'z' then ((s[i] as int) - 32) as char else s[i])
  }

  lemma Regroup(a: string, b: string, c: string, d: string)
    ensures a + (b + c + d) == a + b + c + d
  {}

  /** `str.strip` */
  function Strip(s: string): (r: string)
    ensures r != "" ==> !IsSpace(r[0]) && !IsSpace(r[|r| - 1])
  {
    if s == "" then ""
    else if IsSpace(s[0]) then Strip(s[1..])
    else if IsSpace(s[|s| - 1]) then Strip(s[..|s| - 1])
    else s
  }

  predicate OccursAt(s: string, needle: string, i: nat) {
    i + |needle| <= |s| && s[i..i + |needle|] == needle
  }

  /** `str.find`: the first index at which `needle` occurs. */
  function Find(s: string, needle: string): (r: Option<nat>)
    ensures r.Some? ==> OccursAt(s, needle, r.value)
    ensures forall i: nat :: OccursAt(s, needle, i) ==> r.Some? && r.value <= i
  {
    if OccursAt(s, needle, 0) then Some(0)
    else if s == "" then None
    else
      OccursLater(s, needle);
      match Find(s[1..], needle)
      case None => None
      case Some(k) => Some(k + 1)
  }

  /** What does not occur at the start occurs where it does one character later. */
  lemma OccursLater(s: string, needle: string)
    requires s != "" && !OccursAt(s, needle, 0)
    ensures forall i: nat :: OccursAt(s, needle, i) ==> i > 0 && OccursAt(s[1..], needle, i - 1)
    ensures forall k: nat :: OccursAt(s[1..], needle, k) ==> OccursAt(s, needle, k + 1)
  {
    forall i: nat | OccursAt(s, needle, i) ensures i > 0 && OccursAt(s[1..], needle, i - 1) {
      assert s[1..][i - 1..i - 1 + |needle|] == s[i..i + |needle|];
    }
    forall k: nat | OccursAt(s[1..], needle, k) ensures OccursAt(s, needle, k + 1) {
      assert s[1..][k..k + |needle|] == s[k + 1..k + 1 + |needle|];
    }
  }
}
