/** The names of a body's code and what its for-heads bind, as ECMA-262 has them (sections 12.7, 12.9.3, 13.15.5
    and 14.7.5): what the hoister of pkg/tc39/hoist.go is measured against. */
module BodyNames {
  import opened Types
  import opened BodyLexing
  import opened BindingGrammar
  import opened EcmaPatterns
  import ForHeads

  // ---------------------------------------------------------------- names

  predicate IsDigit(c: char) {
    '0' <= c <= '9'
  }

  predicate IsHex(c: char) {
    IsDigit(c) || 'a' <= c <= 'f' || 'A' <= c <= 'F'
  }

  function HexValue(c: char): nat
    requires IsHex(c)
  {
    if IsDigit(c) then (c - '0') as int else if c <= 'F' then (c - 'A') as int + 10 else (c - 'a') as int + 10
  }

  function HexEnd(code: string, i: nat): (e: nat)
    requires i <= |code|
    ensures i <= e <= |code| && forall k :: i <= k < e ==> IsHex(code[k])
    decreases |code| - i
  {
    if i < |code| && IsHex(code[i]) then HexEnd(code, i + 1) else i
  }

  function HexNumber(digits: string): nat
    requires forall k :: 0 <= k < |digits| ==> IsHex(digits[k])
  {
    if digits == "" then 0 else 16 * HexNumber(digits[..|digits| - 1]) + HexValue(digits[|digits| - 1])
  }

  /** One character for all that are not ASCII. */
  function CharOf(n: nat): char {
    if n < 128 then n as char else '\U{FFFD}'
  }

  /** A part of a name: what it stands for, and the byte behind it. */
  datatype Piece = Piece(c: char, end: nat)

  /** A Unicode escape at byte `p`, of four digits or in braces. */
  function EscapeAt(code: string, p: nat): (r: Option<Piece>)
    ensures r.Some? ==> p < r.value.end <= |code| && code[p] == '\\'
  {
    if p + 2 >= |code| || code[p] != '\\' || code[p + 1] != 'u' then None
    else if code[p + 2] == '{' then
      var e := HexEnd(code, p + 3);
      if p + 3 < e < |code| && code[e] == '}' then Some(Piece(CharOf(HexNumber(code[p + 3..e])), e + 1)) else None
    else if HexEnd(code, p + 2) >= p + 6 then Some(Piece(CharOf(HexNumber(code[p + 2..p + 6])), p + 6))
    else None
  }

  function PieceAt(code: string, p: nat): (r: Option<Piece>)
    ensures r.Some? ==> p < r.value.end <= |code|
  {
    if p < |code| && IsNameByte(code[p]) then Some(Piece(code[p], p + 1)) else EscapeAt(code, p)
  }

  function NameEnd(code: string, p: nat): nat
    decreases |code| - p
  {
    match PieceAt(code, p)
    case None => p
    case Some(piece) => NameEnd(code, piece.end)
  }

  function Spelling(code: string, p: nat): string
    decreases |code| - p
  {
    match PieceAt(code, p)
    case None => ""
    case Some(piece) => [piece.c] + Spelling(code, piece.end)
  }

  /** A name or another word starts at byte `p`, not inside one that started before, nor in a numeral. */
  ghost predicate NameAt(code: string, p: nat)
    decreases p
  {
    p < |code| && PieceAt(code, p).Some? && !IsDigit(PieceAt(code, p).value.c) &&
    (p > 0 ==> !IsNameByte(code[p - 1])) && forall q: nat :: q < p && NameAt(code, q) ==> NameEnd(code, q) <= p
  }

  // ---------------------------------------------------------------- numerals and properties

  /** The start of the run of letters and digits before byte `k`. */
  function RunStart(code: string, k: nat): (s: nat)
    requires k <= |code|
    ensures s <= k
  {
    if k > 0 && IsNameByte(code[k - 1]) then RunStart(code, k - 1) else k
  }

  /** A decimal literal, but for the octal ones of old. */
  predicate IsDecimal(digits: string) {
    digits != "" && IsDigit(digits[0]) && IsDigit(digits[|digits| - 1]) &&
    (forall k :: 0 <= k < |digits| ==> IsDigit(digits[k]) || digits[k] == '_') &&
    (|digits| > 1 && digits[0] == '0' ==> exists k :: 0 <= k < |digits| && (digits[k] == '8' || digits[k] == '9'))
  }

  /** The digits from byte `s` on are the fraction or the exponent of a numeral that started before. */
  predicate Continues(code: string, s: nat)
    requires s <= |code|
    decreases s, 0
  {
    if s > 0 && code[s - 1] == '.' then s == 1 || code[s - 2] != '.'
    else
      s > 1 && (code[s - 1] == '+' || code[s - 1] == '-') && (code[s - 2] == 'e' || code[s - 2] == 'E') &&
      var q := RunStart(code, s - 1);
      IsDigit(code[q]) || (0 < q == s - 2 && NumeralDot(code, q - 1))
  }

  /** The dot at byte `k` is the decimal point of the digits before it. */
  predicate NumeralDot(code: string, k: nat)
    requires k < |code|
    decreases k, 1
  {
    var s := RunStart(code, k);
    code[k] == '.' && IsDecimal(code[s..k]) && !Continues(code, s)
  }

  function BackOver(code: string, p: nat): (k: nat)
    requires p <= |code|
    ensures k <= p
  {
    if p > 0 && IsSpaceByte(code[p - 1]) then BackOver(code, p - 1) else p
  }

  /** The name at byte `p` is a property: behind a dot that is neither a numeral's nor part of a spread. */
  predicate IsProperty(code: string, p: nat)
    requires p <= |code|
  {
    var k := BackOver(code, p);
    k > 0 && code[k - 1] == '.' && !NumeralDot(code, k - 1) && (k > 1 && code[k - 2] == '.' ==> NumeralDot(code, k - 2))
  }

  /** The name at byte `p` does not stand for itself: a property, a private name, or a numeral's exponent. */
  predicate IsPart(code: string, p: nat)
    requires p <= |code|
  {
    IsProperty(code, p) || (p > 0 && (code[p - 1] == '#' || NumeralDot(code, p - 1)))
  }

  /** An identifier of the code. */
  ghost predicate Uses(code: string, p: nat, name: string) {
    NameAt(code, p) && Spelling(code, p) == name && !IsPart(code, p)
  }

  // ---------------------------------------------------------------- for-heads

  /** The word stands at byte `i`, written without escapes. */
  ghost predicate IsWord(code: string, i: nat, w: string) {
    NameAt(code, i) && Spells(code, i, w) && NameEnd(code, i) == i + |w|
  }

  predicate AllSpace(code: string, i: nat, j: nat) {
    i <= j <= |code| && forall k :: i <= k < j ==> IsSpaceByte(code[k])
  }

  /** The parenthesis of a for-head whose `for` stands at byte `i`: behind white space, or behind white space
      around the word `await` (section 14.7.5). */
  ghost predicate OpensHead(code: string, i: nat, open: nat) {
    open < |code| && code[open] == '(' && IsWord(code, i, "for") &&
    (AllSpace(code, i + 3, open) || exists a: nat :: AwaitAt(code, i, a, open))
  }

  ghost predicate AwaitAt(code: string, i: nat, a: nat, open: nat) {
    AllSpace(code, i + 3, a) && IsWord(code, a, "await") && AllSpace(code, a + 5, open)
  }

  /** How many brackets opened and did not close between bytes `from` and `i`. */
  function Nesting(code: string, from: nat, i: nat): int
    requires from <= i <= |code|
    decreases i
  {
    if i == from then 0
    else
      Nesting(code, from, i - 1) +
      match code[i - 1]
      case '(' | '[' | '{' => 1
      case ')' | ']' | '}' => -1
      case _ => 0
  }

  ghost predicate IsLoopWord(code: string, i: nat) {
    IsWord(code, i, "of") || IsWord(code, i, "in")
  }

  /** Byte `i`, outside all brackets, ends the head or one of its three parts, or is the loop's word. */
  ghost predicate EndsPart(code: string, from: nat, i: nat)
    requires from <= i < |code|
  {
    Nesting(code, from, i) == 0 &&
    (code[i] == ')' || code[i] == ']' || code[i] == '}' || code[i] == ';' || IsLoopWord(code, i))
  }

  /** The first such byte from byte `from` on is the loop's word, at byte `e`. */
  ghost predicate LoopWordAt(code: string, from: nat, e: nat) {
    from <= e < |code| && Nesting(code, from, e) == 0 && IsLoopWord(code, e) &&
    forall i :: from <= i < e ==> !EndsPart(code, from, i)
  }

  /** The binding of a head that opens at byte `open` ends at byte `e`. It may start with the identifier `of`. */
  ghost predicate BindingEnds(code: string, open: nat, e: nat) {
    if exists of: nat :: AllSpace(code, open + 1, of) && IsWord(code, of, "of") then
      exists of: nat :: AllSpace(code, open + 1, of) && IsWord(code, of, "of") && LoopWordAt(code, of + 2, e)
    else LoopWordAt(code, open + 1, e)
  }

  /** The reserved words (section 12.7.2), and those a for-head treats in a way of their own. */
  const WORDS := {
    "async", "await", "break", "case", "catch", "class", "const", "continue", "debugger", "default", "delete", "do",
    "else", "enum", "export", "extends", "false", "finally", "for", "function", "if", "import", "in", "instanceof",
    "let", "new", "null", "return", "super", "switch", "this", "throw", "true", "try", "typeof", "var", "void",
    "while", "with", "yield"
  }

  /** The tokens are a lone identifier at byte `p`, or a pattern with a target there. */
  ghost predicate BindsAt(toks: seq<Token>, p: nat) {
    (exists name :: toks == [Token(Ident(name), p)] && name !in WORDS) ||
    (exists item :: IsPattern(item) && YieldItem(item, []) == toks && p in TargetsOf(item))
  }

  /** The for-head at byte `i`, which opens at byte `open` and whose binding ends at byte `e`, binds the identifier
      at byte `p`. */
  ghost predicate HeadBinds(code: string, i: nat, open: nat, e: nat, p: nat) {
    OpensHead(code, i, open) && !IsPart(code, i) && BindingEnds(code, open, e) && open < e <= |code| &&
    BindsAt(ForHeads.TokensFrom(code, open + 1, e), p)
  }

  /** Byte `p` is a target of a for-head. */
  ghost predicate IsTarget(code: string, p: nat) {
    exists i: nat, open: nat, e: nat :: HeadBinds(code, i, open, e, p)
  }
}
