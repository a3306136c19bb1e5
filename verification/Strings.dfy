/** The string helpers of Go's standard library that the harness leans on. */
module Strings {
  import opened Types

  predicate IsSpace(c: char) {
    c == ' ' || '\t' <= c <= '\r' || c == 0x85 as char || c == 0xA0 as char
  }

  /** The ASCII white space, and the two of Latin-1. */
  lemma {:induction false} SpacesAre(c: char)
    ensures IsSpace(c) <==>
            c == ' ' || c == '\t' || c == '\n' || c == '\U{0B}' || c == '\U{0C}' || c == '\r' ||
            c == '\U{85}' || c == '\U{A0}'
  {
  }

  predicate OccursAt(s: string, sub: string, i: int) {
    0 <= i <= |s| - |sub| && s[i..i + |sub|] == sub
  }

  /** strings.Contains */
  predicate Contains(s: string, sub: string) {
    exists i :: 0 <= i <= |s| - |sub| && OccursAt(s, sub, i)
  }

  lemma {:induction false} ContainsMeans(s: string, sub: string)
    ensures Contains(s, sub) <==>
            exists before: string, after: string {:trigger before + sub + after} :: s == before + sub + after
  {
    if Contains(s, sub) {
      var i :| 0 <= i <= |s| - |sub| && OccursAt(s, sub, i);
      assert s == s[..i] + sub + s[i + |sub|..];
    }
    if before: string, after: string :| s == before + sub + after {
      assert s[|before|..|before| + |sub|] == sub;
      assert OccursAt(s, sub, |before|);
    }
  }

  function TrimLeft(s: string): string {
    if s != "" && IsSpace(s[0]) then TrimLeft(s[1..]) else s
  }

  function TrimRight(s: string): string {
    if s != "" && IsSpace(s[|s| - 1]) then TrimRight(s[..|s| - 1]) else s
  }

  /** strings.TrimSpace */
  function Trim(s: string): string {
    TrimRight(TrimLeft(s))
  }

  /** strings.Cut on one byte. */
  function Cut(s: string, c: char): Option<(string, string)> {
    if s == "" then None
    else if s[0] == c then Some(("", s[1..]))
    else
      match Cut(s[1..], c)
      case None => None
      case Some((before, after)) => Some(([s[0]] + before, after))
  }

  /** strings.Split at newlines; the result is never empty. */
  function Split(s: string): (r: seq<string>)
    ensures r != []
  {
    if s == "" then [""]
    else
      var rest := Split(s[1..]);
      if s[0] == '\n' then [""] + rest else [[s[0]] + rest[0]] + rest[1..]
  }

  function Capped(s: string): string {
    if |s| > 300 then s[..300] else s
  }

  /** firstLine of pkg/tc39/worker.go */
  function FirstLine(s: string): string {
    Capped(Split(s)[0])
  }

  /** diagLine of pkg/tc39/worker.go: the first line that names a Go location. */
  function DiagLine(s: string): string {
    DiagOf(Split(s), s)
  }

  function DiagOf(lines: seq<string>, s: string): string {
    if lines == [] then FirstLine(s)
    else if Contains(Trim(lines[0]), ".go:") then Capped(Trim(lines[0]))
    else DiagOf(lines[1..], s)
  }

  /** The split lines, with a newline between each two, are the text. */
  lemma {:induction false} SplitFirstLine(s: string)
    ensures var first := Split(s)[0];
            first <= s && '\n' !in first && (first == s || s[|first|] == '\n')
  {
    if s != "" && s[0] != '\n' {
      SplitFirstLine(s[1..]);
      var first := Split(s[1..])[0];
      assert Split(s)[0] == [s[0]] + first;
      assert s == [s[0]] + s[1..];
    }
  }

  /** The first line is the text up to its first newline, and no more than 300 bytes of that. */
  lemma {:induction false} FirstLineIs(s: string)
    ensures var r := FirstLine(s);
            r <= s && '\n' !in r && |r| <= 300 && (|r| == 300 || r == s || s[|r|] == '\n')
  {
    SplitFirstLine(s);
  }

  ghost predicate NamesGo(line: string) {
    Contains(Trim(line), ".go:")
  }

  /** The diagnostic line is the first line that names a Go location, trimmed and capped, if one does, and the
      first line otherwise. */
  lemma {:induction false} DiagLineIs(lines: seq<string>, s: string)
    ensures (forall k :: 0 <= k < |lines| ==> !NamesGo(lines[k])) ==> DiagOf(lines, s) == FirstLine(s)
    ensures forall k: nat :: k < |lines| && NamesGo(lines[k]) && (forall i :: 0 <= i < k ==> !NamesGo(lines[i])) ==>
              DiagOf(lines, s) == if |Trim(lines[k])| > 300 then Trim(lines[k])[..300] else Trim(lines[k])
  {
    if lines != [] {
      DiagLineIs(lines[1..], s);
      forall k: nat | k < |lines| && NamesGo(lines[k]) && (forall i :: 0 <= i < k ==> !NamesGo(lines[i]))
        ensures DiagOf(lines, s) == if |Trim(lines[k])| > 300 then Trim(lines[k])[..300] else Trim(lines[k])
      {
        if k > 0 {
          assert lines[k] == lines[1..][k - 1];
          forall i | 0 <= i < k - 1 ensures !NamesGo(lines[1..][i]) { assert lines[1..][i] == lines[i + 1]; }
        }
      }
    }
  }
}
