/** The byte tests the scanners share. A byte is written as a `char`; bytes are the chars below 256,
    so a statement over all strings covers every byte string. */
module Bytes {

  predicate IsIdentStart(c: char) {
    c == '_' || c == '$' || 'a' <= c <= 'z' || 'A' <= c <= 'Z'
  }

  predicate IsIdentPart(c: char) {
    IsIdentStart(c) || '0' <= c <= '9'
  }

  predicate IsBlank(c: char) {
    c == ' ' || c == '\t' || c == '\n' || c == '\r'
  }

  /** `word` stands at `i` with no identifier byte on either side. */
  predicate WordAt(code: string, i: nat, word: string) {
    i + |word| <= |code| && code[i..i + |word|] == word &&
    (i > 0 ==> !IsIdentPart(code[i - 1])) &&
    (i + |word| < |code| ==> !IsIdentPart(code[i + |word|]))
  }

  function AfterBlanks(code: string, i: nat): (j: nat)
    ensures i <= j && (i <= |code| ==> j <= |code|)
    ensures forall k :: i <= k < j ==> k < |code| && IsBlank(code[k])
    ensures j < |code| ==> !IsBlank(code[j])
    decreases |code| - i
  {
    if i < |code| && IsBlank(code[i]) then AfterBlanks(code, i + 1) else i
  }

  method SkipSpace(code: string, start: nat) returns (i: nat)
    ensures i == AfterBlanks(code, start)
  {
    i := start;
    while i < |code| && IsBlank(code[i])
      invariant AfterBlanks(code, i) == AfterBlanks(code, start)
    {
      i := i + 1;
    }
  }
}
