/** Identifier occurrences in masked code (pkg/tc39/hoist.go, scanIdents and memberProperty). */
module Identifiers {
  import opened Bytes

  datatype Occurrence = Occurrence(name: string, pos: nat)

  /** Byte `p` continues an identifier that started before it. */
  predicate InsideIdent(code: string, p: nat)
    requires p <= |code|
  {
    p > 0 && IsIdentPart(code[p - 1]) && (IsIdentStart(code[p - 1]) || InsideIdent(code, p - 1))
  }

  predicate IdentStartsAt(code: string, p: nat) {
    p < |code| && IsIdentStart(code[p]) && !InsideIdent(code, p)
  }

  /** The end of the run of identifier bytes at `p`. */
  function IdentEnd(code: string, p: nat): (e: nat)
    requires p <= |code|
    ensures p <= e <= |code|
    ensures forall k :: p <= k < e ==> IsIdentPart(code[k])
    ensures e < |code| ==> !IsIdentPart(code[e])
    decreases |code| - p
  {
    if p < |code| && IsIdentPart(code[p]) then IdentEnd(code, p + 1) else p
  }

  function BackOverBlanks(code: string, p: nat): (k: nat)
    requires p <= |code|
    ensures k <= p && (k > 0 ==> !IsBlank(code[k - 1]))
    ensures forall j :: k <= j < p ==> IsBlank(code[j])
  {
    if p > 0 && IsBlank(code[p - 1]) then BackOverBlanks(code, p - 1) else p
  }

  /** The identifier at `p` is the property of a member access: a lone dot before it. */
  predicate IsMember(code: string, p: nat)
    requires p <= |code|
  {
    var k := BackOverBlanks(code, p);
    k > 0 && code[k - 1] == '.' && (k == 1 || code[k - 2] != '.')
  }

  method MemberProperty(code: string, i: nat) returns (r: bool)
    requires i <= |code|
    ensures r == IsMember(code, i)
  {
    var k := i - 1;
    while k >= 0 && (code[k] == ' ' || code[k] == '\t' || code[k] == '\n' || code[k] == '\r')
      invariant -1 <= k < i || k == i - 1
      invariant BackOverBlanks(code, k + 1) == BackOverBlanks(code, i)
    {
      k := k - 1;
    }
    if k < 0 || code[k] != '.' { return false; }
    return k == 0 || code[k - 1] != '.';
  }

  function OccurrenceAt(code: string, p: nat): Occurrence
    requires p <= |code|
  {
    Occurrence(code[p..IdentEnd(code, p)], p)
  }

  /** An identifier token starts at `p` and is not a member property. */
  predicate Occurs(code: string, p: nat) {
    IdentStartsAt(code, p) && !IsMember(code, p)
  }

  /** All occurrences from byte `i` on, found by testing every byte. */
  function OccurrencesFrom(code: string, i: nat): seq<Occurrence>
    requires i <= |code|
    decreases |code| - i
  {
    if i == |code| then []
    else if Occurs(code, i) then [OccurrenceAt(code, i)] + OccurrencesFrom(code, i + 1)
    else OccurrencesFrom(code, i + 1)
  }

  lemma {:induction false} NoneInside(code: string, i: nat, j: nat)
    requires i < |code| && i < j <= IdentEnd(code, i) && IsIdentStart(code[i])
    ensures OccurrencesFrom(code, i + 1) == OccurrencesFrom(code, j) && InsideIdent(code, j)
    decreases j
  {
    if j == i + 1 {
    } else {
      NoneInside(code, i, j - 1);
    }
  }

  /** The scan skips whole identifiers and yields exactly the occurrences, in order. */
  method ScanIdents(code: string) returns (out: seq<Occurrence>)
    ensures out == OccurrencesFrom(code, 0)
  {
    out := [];
    var i := 0;
    while i < |code|
      invariant 0 <= i <= |code|
      invariant i < |code| ==> !InsideIdent(code, i) || !IsIdentPart(code[i])
      invariant out + OccurrencesFrom(code, i) == OccurrencesFrom(code, 0)
    {
      var c := code[i];
      if !IsIdentStart(c) {
        i := i + 1;
        continue;
      }
      var j := i + 1;
      while j < |code| && IsIdentPart(code[j])
        invariant i < j <= |code| && IdentEnd(code, i) == IdentEnd(code, j)
      {
        j := j + 1;
      }
      NoneInside(code, i, j);
      var member := MemberProperty(code, i);
      if !member {
        out := out + [Occurrence(code[i..j], i)];
      }
      i := j;
    }
  }

  /** The list holds nothing but occurrences, and misses none. */
  lemma {:induction false} OccurrencesExact(code: string, i: nat, o: Occurrence)
    requires i <= |code|
    ensures o in OccurrencesFrom(code, i) <==>
              i <= o.pos < |code| && Occurs(code, o.pos) && o == OccurrenceAt(code, o.pos)
    decreases |code| - i
  {
    if i == |code| {
    } else {
      OccurrencesExact(code, i + 1, o);
    }
  }

  /** Its positions increase. */
  lemma {:induction false} OccurrencesIncrease(code: string, i: nat, a: nat, b: nat)
    requires i <= |code| && a < b < |OccurrencesFrom(code, i)|
    ensures OccurrencesFrom(code, i)[a].pos < OccurrencesFrom(code, i)[b].pos
    decreases |code| - i
  {
    if Occurs(code, i) {
      if a > 0 {
        OccurrencesIncrease(code, i + 1, a - 1, b - 1);
      } else {
        OccurrencesExact(code, i + 1, OccurrencesFrom(code, i + 1)[b - 1]);
      }
    } else {
      OccurrencesIncrease(code, i + 1, a, b);
    }
  }
}
