/** Character classes shared by the scanners, and one option type. */
module Chars {

  datatype Option<+T> = None | Some(value: T)

  /** Python's `str.isspace` on one character. */
  predicate IsSpace(c: char) {
    || '\U{0009}' <= c <= '\U{000D}'
    || '\U{001C}' <= c <= '\U{0020}'
    || c == '\U{0085}' || c == '\U{00A0}' || c == '\U{1680}'
    || '\U{2000}' <= c <= '\U{200A}'
    || c == '\U{2028}' || c == '\U{2029}' || c == '\U{202F}' || c == '\U{205F}' || c == '\U{3000}'
  }

  /** The code points Python counts as space: six controls and the blank, four separators, and the wide ones. */
  const SPACE_CODES: seq<int> := [
    0x09, 0x0A, 0x0B, 0x0C, 0x0D, 0x20, 0x1C, 0x1D, 0x1E, 0x1F, 0x85, 0xA0, 0x1680,
    0x2000, 0x2001, 0x2002, 0x2003, 0x2004, 0x2005, 0x2006, 0x2007, 0x2008, 0x2009, 0x200A,
    0x2028, 0x2029, 0x202F, 0x205F, 0x3000]

  /** The table, with the four spaces of JSON among them. */
  lemma SpacesAreInTable(c: char)
    ensures IsSpace(c) <==> c as int in SPACE_CODES
    ensures c == ' ' || c == '\t' || c == '\n' || c == '\r' ==> IsSpace(c)
  {
  }

  predicate AllSpace(s: string) {
    forall i :: 0 <= i < |s| ==> IsSpace(s[i])
  }

  /** The first index at or after `i` that does not hold a space, or the length of `t`. */
  function SkipSpace(t: string, i: nat): (j: nat)
    requires i <= |t|
    ensures i <= j <= |t|
    ensures AllSpace(t[i..j])
    ensures j < |t| ==> !IsSpace(t[j])
    decreases |t| - i
  {
    if i < |t| && IsSpace(t[i]) then
      var j := SkipSpace(t, i + 1);
      assert t[i..j] == [t[i]] + t[i + 1..j];
      j
    else i
  }

  /** Skipping is exact: it stops at the only index that ends a run of spaces. */
  lemma SkipSpaceUnique(t: string, i: nat, j: nat)
    requires i <= j <= |t|
    requires AllSpace(t[i..j])
    requires j < |t| ==> !IsSpace(t[j])
    ensures SkipSpace(t, i) == j
    decreases j - i
  {
    if i < j {
      assert t[i..j][0] == t[i];
      assert t[i + 1..j] == t[i..j][1..];
      SkipSpaceUnique(t, i + 1, j);
    }
  }

  predicate Digit(c: char) { '0' <= c <= '9' }

  predicate Opener(c: char) { c == '{' || c == '[' }

  predicate Closer(c: char) { c == '}' || c == ']' }

  /** The character at an index, or none past the end. */
  function At(t: string, i: nat): Option<char> {
    if i < |t| then Some(t[i]) else None
  }
}
