/** Names and for-heads of code without escapes, as ECMA-262 has them (`BodyNames`) and as the scanners of
    pkg/tc39/hoist.go find them: the same words, the same parentheses, the same bindings, the same targets. */
module PlainHeads {
  import opened Bytes
  import opened Types
  import Id = Identifiers
  import opened BindingGrammar
  import opened PatternWalk
  import opened EcmaPatterns
  import opened ForHeads
  import opened TextOverlay
  import opened BodyLexing
  import opened BodyNames

  ghost predicate NoEscapes(code: string) {
    forall k :: 0 <= k < |code| ==> code[k] != '\\' && code[k] != '#'
  }

  /** No dot behind a digit stands before blanks, or one more dot, and a name. */
  predicate PlainDot(code: string, p: nat)
    requires p <= |code|
  {
    var k := BackOver(code, p);
    k > 0 && code[k - 1] == '.' ==>
      (k > 1 && IsDigit(code[k - 2]) ==> k == p) && (k > 2 && code[k - 2] == '.' ==> !IsDigit(code[k - 3]))
  }

  ghost predicate PlainDots(code: string) {
    forall p: nat :: p < |code| && IsNameStart(code[p]) ==> PlainDot(code, p)
  }

  // ---------------------------------------------------------------- names of plain code

  lemma {:induction false} PlainName(code: string, p: nat)
    requires NoEscapes(code) && p <= |code|
    ensures NameEnd(code, p) == Id.IdentEnd(code, p) && Spelling(code, p) == code[p..Id.IdentEnd(code, p)]
    decreases |code| - p
  {
    if p < |code| && IsIdentPart(code[p]) {
      PlainName(code, p + 1);
      var e := Id.IdentEnd(code, p);
      assert code[p..e] == [code[p]] + code[p + 1..e];
    }
  }

  lemma {:induction false} PlainNameAt(code: string, p: nat)
    requires NoEscapes(code) && p < |code|
    ensures NameAt(code, p) <==> IsIdentStart(code[p]) && (p > 0 ==> !IsIdentPart(code[p - 1]))
  {
    forall q: nat | q < p && NameAt(code, q) && p > 0 && !IsIdentPart(code[p - 1]) ensures NameEnd(code, q) <= p {
      PlainName(code, q);
    }
  }

  /** The hoister takes the letters of a numeral for a name. */
  predicate InNumeral(code: string, p: nat) {
    0 < p <= |code| && IsDigit(code[p - 1])
  }

  lemma {:induction false} NotInside(code: string, p: nat)
    requires p <= |code|
    ensures (p > 0 ==> !IsIdentPart(code[p - 1])) <==> !Id.InsideIdent(code, p) && !InNumeral(code, p)
  {
  }

  lemma {:induction false} NumeralEndsInDigit(code: string, k: nat)
    requires k < |code| && NumeralDot(code, k)
    ensures k > 0 && IsDigit(code[k - 1])
  {
    var s := RunStart(code, k);
    assert s < k;
    assert code[s..k][k - 1 - s] == code[k - 1];
  }

  lemma {:induction false} BackSame(code: string, p: nat)
    requires p <= |code|
    ensures BackOver(code, p) == Id.BackOverBlanks(code, p)
  {
    if p > 0 && IsBlank(code[p - 1]) { BackSame(code, p - 1); }
  }

  lemma {:induction false} PropertyIff(code: string, p: nat)
    requires NoEscapes(code) && p <= |code| && PlainDot(code, p)
    ensures IsPart(code, p) <==> Id.IsMember(code, p)
  {
    BackSame(code, p);
    var k := BackOver(code, p);
    if k > 0 && NumeralDot(code, k - 1) { NumeralEndsInDigit(code, k - 1); }
    if k > 1 && NumeralDot(code, k - 2) { NumeralEndsInDigit(code, k - 2); }
    if p > 0 && NumeralDot(code, p - 1) { assert k == p; }
  }

  /** Behind the guard the identifiers are those the hoister sees, but for the letters of numerals. */
  lemma {:induction false} UsesIff(code: string, p: nat, name: string)
    requires NoEscapes(code) && PlainDots(code) && p < |code|
    ensures Uses(code, p, name) <==> Mentions(code, p, name) && !InNumeral(code, p)
  {
    PlainNameAt(code, p);
    NotInside(code, p);
    PlainName(code, p);
    if IsIdentStart(code[p]) { PropertyIff(code, p); }
  }

  // ---------------------------------------------------------------- words

  /** A word of letters. */
  predicate IsLetters(w: string) {
    w != "" && forall k :: 0 <= k < |w| ==> IsNameStart(w[k])
  }

  lemma {:induction false} RunsTo(code: string, i: nat, e: nat)
    requires i <= e <= |code| && (forall k :: i <= k < e ==> IsIdentPart(code[k]))
    requires e < |code| ==> !IsIdentPart(code[e])
    ensures Id.IdentEnd(code, i) == e
    decreases e - i
  {
    if i < e { RunsTo(code, i + 1, e); }
  }

  lemma {:induction false} SpelltByte(code: string, i: nat, w: string, k: nat)
    requires Spells(code, i, w) && k < |w|
    ensures code[i + k] == w[k]
  {
    assert code[i..i + |w|][k] == code[i + k];
  }

  /** Without escapes a word stands where its bytes do, with no name byte on either side. */
  lemma {:induction false} WordIff(code: string, i: nat, w: string)
    requires NoEscapes(code) && IsLetters(w)
    ensures IsWord(code, i, w) <==> WordAt(code, i, w)
  {
    if Spells(code, i, w) {
      SpelltByte(code, i, w, 0);
      PlainNameAt(code, i);
      PlainName(code, i);
      forall k: nat | i <= k < i + |w| ensures IsIdentPart(code[k]) { SpelltByte(code, i, w, k - i); }
      if WordAt(code, i, w) { RunsTo(code, i, i + |w|); }
    }
  }

  lemma {:induction false} WordsIff(code: string, i: nat)
    requires NoEscapes(code)
    ensures IsWord(code, i, "for") <==> WordAt(code, i, "for")
    ensures IsWord(code, i, "await") <==> WordAt(code, i, "await")
    ensures IsWord(code, i, "of") <==> WordAt(code, i, "of")
    ensures IsLoopWord(code, i) <==> KeywordAt(code, i)
  {
    WordIff(code, i, "for");
    WordIff(code, i, "await");
    WordIff(code, i, "of");
    WordIff(code, i, "in");
  }

  // ---------------------------------------------------------------- parentheses

  lemma {:induction false} BlanksEnd(code: string, i: nat, j: nat)
    requires AllSpace(code, i, j) && (j < |code| ==> !IsSpaceByte(code[j]))
    ensures AfterBlanks(code, i) == j
    decreases j - i
  {
    if i < j { BlanksEnd(code, i + 1, j); }
  }

  /** The search for a head's parenthesis finds one exactly where the head opens. */
  lemma {:induction false} OpensIff(code: string, i: nat, open: nat)
    requires NoEscapes(code)
    ensures OpensHead(code, i, open) <==>
            WordAt(code, i, "for") && ParenSpot(code, i) == open && open < |code| && code[open] == '('
  {
    WordsIff(code, i);
    if OpensHead(code, i, open) {
      if AllSpace(code, i + 3, open) {
        BlanksEnd(code, i + 3, open);
        WordStarts(code, open, "await");
      } else {
        var a: nat :| AwaitAt(code, i, a, open);
        WordsIff(code, a);
        WordStarts(code, a, "await");
        BlanksEnd(code, i + 3, a);
        BlanksEnd(code, a + 5, open);
      }
    }
    if WordAt(code, i, "for") && ParenSpot(code, i) == open && open < |code| && code[open] == '(' {
      var a := AfterBlanks(code, i + 3);
      WordsIff(code, a);
      if WordAt(code, a, "await") { assert AwaitAt(code, i, a, open); }
    }
  }

  // ---------------------------------------------------------------- the end of a binding

  lemma {:induction false} NestingIs(code: string, from: nat, i: nat)
    requires from <= i <= |code|
    ensures Depth(code, from, i) == Nesting(code, from, i) + 1
    decreases i
  {
    if i > from { NestingIs(code, from, i - 1); }
  }

  lemma {:induction false} EndsPartIff(code: string, from: nat, i: nat)
    requires NoEscapes(code) && from <= i < |code|
    ensures EndsPart(code, from, i) <==> Stops(code, from, i)
  {
    NestingIs(code, from, i);
    WordsIff(code, i);
  }

  lemma {:induction false} NeverBelow(code: string, from: nat, k: nat)
    requires from <= k <= |code| && forall i :: from <= i < k ==> !Stops(code, from, i)
    ensures Depth(code, from, k) >= 1
    decreases k
  {
    if k > from {
      NeverBelow(code, from, k - 1);
      assert !Stops(code, from, k - 1);
    }
  }

  /** The search goes on to byte `k`. */
  ghost predicate Reaches(code: string, from: nat, k: nat) {
    from <= k <= |code| && forall i :: from <= i < k ==> !EndsPart(code, from, i)
  }

  lemma {:induction false} ReachesIff(code: string, from: nat, k: nat)
    requires NoEscapes(code)
    ensures Reaches(code, from, k) <==> Searching(code, from, k)
  {
    if from <= k <= |code| {
      forall i | from <= i < k ensures EndsPart(code, from, i) <==> Stops(code, from, i) { EndsPartIff(code, from, i); }
      if Reaches(code, from, k) {
        forall i | from <= i < k ensures Depth(code, from, i) >= 1 && !Stops(code, from, i) {
          EndsPartIff(code, from, i);
          NeverBelow(code, from, i);
        }
      }
      if Searching(code, from, k) {
        forall i | from <= i < k ensures !EndsPart(code, from, i) { EndsPartIff(code, from, i); }
      }
    }
  }

  /** The search for the loop's word finds it exactly where the binding ends. */
  lemma {:induction false} LoopWordIff(code: string, from: nat, e: nat)
    requires NoEscapes(code) && from <= |code|
    ensures LoopWordAt(code, from, e) <==> EndFrom(code, from, 1) == Some(e)
  {
    BindingEndExact(code, from, e);
    if from <= e < |code| {
      NestingIs(code, from, e);
      WordsIff(code, e);
      ReachesIff(code, from, e);
      assert LoopWordAt(code, from, e) <==>
             Reaches(code, from, e) && Nesting(code, from, e) == 0 && IsLoopWord(code, e);
    }
  }

  // ---------------------------------------------------------------- heads

  /** The lexeme of a lone identifier that is no word of its own, or a pattern. */
  ghost predicate IsBinding(toks: seq<Token>) {
    (|toks| == 1 && toks[0].lexeme.Ident? && toks[0].lexeme.name !in WORDS) ||
    exists item :: IsPattern(item) && YieldItem(item, []) == toks
  }

  /** A head that opens at byte `open` and whose binding ends at byte `e`: the binding does not start with `of`
      and holds no other `for`, and what the walk accepts of it is a binding. */
  ghost predicate PlainBinding(code: string, open: nat, e: nat) {
    open < e <= |code| &&
    (forall of: nat :: AllSpace(code, open + 1, of) ==> !IsWord(code, of, "of")) &&
    (forall k: nat :: open < k < e ==> !IsWord(code, k, "for")) &&
    (BindingTargets(TokensFrom(code, open + 1, e)) != {} ==> IsBinding(TokensFrom(code, open + 1, e)))
  }

  /** A `for` at byte `i` stands behind no dot, and its binding, if it has one, is plain. */
  ghost predicate PlainHead(code: string, i: nat) {
    (IsWord(code, i, "for") ==> BackOver(code, i) == 0 || code[BackOver(code, i) - 1] != '.') &&
    forall open: nat, e: nat :: OpensHead(code, i, open) && LoopWordAt(code, open + 1, e) ==>
      PlainBinding(code, open, e)
  }

  lemma {:induction false} HeadAtIff(code: string, i: nat, open: nat, e: nat)
    requires NoEscapes(code)
    ensures HeadAt(code, i) == Some(Region(open + 1, e)) <==> OpensHead(code, i, open) && LoopWordAt(code, open + 1, e)
  {
    OpensIff(code, i, open);
    if open + 1 <= |code| { LoopWordIff(code, open + 1, e); }
    if WordAt(code, i, "for") {
      var spot := ParenSpot(code, i);
      if spot < |code| && code[spot] == '(' { HeadAtParen(code, i, spot); } else { NoParen(code, i); }
    }
  }

  lemma {:induction false} HeadOpens(code: string, i: nat, r: Region)
    requires NoEscapes(code) && HeadAt(code, i) == Some(r)
    ensures r.start > 0 && OpensHead(code, i, r.start - 1) && LoopWordAt(code, r.start, r.end)
  {
    HeadAtIff(code, i, r.start - 1, r.end);
  }

  lemma {:induction false} FoundIsPlain(code: string, i: nat, r: Region)
    requires NoEscapes(code) && PlainHead(code, i) && HeadAt(code, i) == Some(r)
    ensures r.start > 0 && PlainBinding(code, r.start - 1, r.end)
  {
    HeadOpens(code, i, r);
  }

  lemma {:induction false} HeadIsFound(code: string, i: nat, j: nat, r: Region)
    requires i <= j < |code| && HeadAt(code, j) == Some(r)
    requires NoEscapes(code) && forall k: nat :: PlainHead(code, k)
    ensures r in HeadsFrom(code, i)
    decreases |code| - i
  {
    if i == j {
    } else {
      match HeadAt(code, i) {
        case None => HeadIsFound(code, i + 1, j, r);
        case Some(q) =>
          NotInHead(code, i, j, q);
          HeadIsFound(code, q.end, j, r);
      }
    }
  }

  lemma {:induction false} NoForBefore(code: string, i: nat, q: Region)
    requires HeadAt(code, i) == Some(q)
    ensures forall k: nat :: i < k < q.start && k < |code| ==> code[k] != 'f'
  {
    NoFInHead(code, i);
    assert code[q.start - 1] == '(';
  }

  /** No other head starts within a head. */
  lemma {:induction false} NotInHead(code: string, i: nat, j: nat, q: Region)
    requires NoEscapes(code) && HeadAt(code, i) == Some(q) && PlainHead(code, i) && i < j && WordAt(code, j, "for")
    ensures q.end <= j
  {
    WordStarts(code, j, "for");
    NoForBefore(code, i, q);
    FoundIsPlain(code, i, q);
    WordsIff(code, j);
  }

  lemma {:induction false} FoundIsHead(code: string, i: nat, r: Region)
    requires i <= |code| && r in HeadsFrom(code, i)
    ensures exists j: nat :: j < |code| && HeadAt(code, j) == Some(r)
    decreases |code| - i
  {
    match HeadAt(code, i) {
      case None => FoundIsHead(code, i + 1, r);
      case Some(q) => if r != q { FoundIsHead(code, q.end, r); }
    }
  }

  // ---------------------------------------------------------------- targets

  lemma {:induction false} BindsAreTargets(toks: seq<Token>, p: nat)
    requires BindsAt(toks, p)
    ensures p in BindingTargets(toks)
  {
    if item :| IsPattern(item) && YieldItem(item, []) == toks && p in TargetsOf(item) {
      PatternsAccepted(item);
    }
  }

  lemma {:induction false} TargetsAreBound(toks: seq<Token>, p: nat)
    requires p in BindingTargets(toks) && IsBinding(toks)
    ensures BindsAt(toks, p)
  {
    if item :| IsPattern(item) && YieldItem(item, []) == toks {
      PatternsAccepted(item);
    } else {
      assert toks == [Token(Ident(toks[0].lexeme.name), p)];
    }
  }

  lemma {:induction false} NotBehindDot(code: string, i: nat)
    requires NoEscapes(code) && PlainDots(code) && PlainHead(code, i) && IsWord(code, i, "for")
    ensures !IsPart(code, i)
  {
    SpelltByte(code, i, "for", 0);
    PropertyIff(code, i);
    BackSame(code, i);
  }

  lemma {:induction false} BindingEndsIff(code: string, open: nat, e: nat, end: nat)
    requires NoEscapes(code) && open < |code| && LoopWordAt(code, open + 1, end) && PlainBinding(code, open, end)
    ensures BindingEnds(code, open, e) <==> e == end
  {
    LoopWordIff(code, open + 1, e);
    LoopWordIff(code, open + 1, end);
  }

  lemma {:induction false} HeadBindsIff(code: string, i: nat, r: Region, p: nat)
    requires NoEscapes(code) && PlainDots(code) && PlainHead(code, i) && HeadAt(code, i) == Some(r)
    ensures r.start > 0
    ensures HeadBinds(code, i, r.start - 1, r.end, p) <==> p in RegionTargets(code, r)
  {
    var open := r.start - 1;
    HeadOpens(code, i, r);
    FoundIsPlain(code, i, r);
    NotBehindDot(code, i);
    BindingEndsIff(code, open, r.end, r.end);
    var toks := TokensFrom(code, r.start, r.end);
    if BindsAt(toks, p) { BindsAreTargets(toks, p); }
    if p in BindingTargets(toks) { TargetsAreBound(toks, p); }
  }

  lemma {:induction false} NestingOfSpace(code: string, from: nat, i: nat)
    requires AllSpace(code, from, i)
    ensures Nesting(code, from, i) == 0
    decreases i
  {
    if i > from { NestingOfSpace(code, from, i - 1); }
  }

  lemma {:induction false} LeadingOf(code: string, from: nat, of: nat)
    requires NoEscapes(code) && AllSpace(code, from, of) && IsWord(code, of, "of")
    ensures LoopWordAt(code, from, of)
  {
    NestingOfSpace(code, from, of);
    forall i | from <= i < of ensures !EndsPart(code, from, i) {
      WordsIff(code, i);
      NotAKeyword(code, i);
    }
  }

  lemma {:induction false} NoLeadingOf(code: string, i: nat, open: nat)
    requires NoEscapes(code) && PlainHead(code, i) && OpensHead(code, i, open)
    ensures forall of: nat :: AllSpace(code, open + 1, of) ==> !IsWord(code, of, "of")
  {
    forall of: nat | AllSpace(code, open + 1, of) && IsWord(code, of, "of") ensures PlainBinding(code, open, of) {
      LeadingOf(code, open + 1, of);
    }
  }

  lemma {:induction false} BindingIsFound(code: string, i: nat, open: nat, e: nat, p: nat)
    requires NoEscapes(code) && PlainHead(code, i) && HeadBinds(code, i, open, e, p)
    ensures HeadAt(code, i) == Some(Region(open + 1, e))
  {
    NoLeadingOf(code, i, open);
    HeadAtIff(code, i, open, e);
  }

  lemma {:induction false} HeadParts(code: string, i: nat, open: nat, e: nat, p: nat)
    requires HeadBinds(code, i, open, e, p)
    ensures OpensHead(code, i, open) && open < e <= |code| && BindsAt(TokensFrom(code, open + 1, e), p)
  {
  }

  lemma {:induction false} TargetOfTokens(code: string, r: Region, p: nat)
    requires r.start <= r.end <= |code| && BindsAt(TokensFrom(code, r.start, r.end), p)
    ensures p in RegionTargets(code, r)
  {
    BindsAreTargets(TokensFrom(code, r.start, r.end), p);
  }

  lemma {:induction false} BoundIsFound(code: string, i: nat, open: nat, e: nat, p: nat)
    requires NoEscapes(code) && PlainHead(code, i) && HeadBinds(code, i, open, e, p)
    ensures i < |code| && HeadAt(code, i) == Some(Region(open + 1, e)) && p in RegionTargets(code, Region(open + 1, e))
  {
    BindingIsFound(code, i, open, e, p);
    HeadParts(code, i, open, e, p);
    TargetOfTokens(code, Region(open + 1, e), p);
  }

  lemma {:induction false} TargetIsFound(code: string, i: nat, r: Region, p: nat)
    requires NoEscapes(code) && i < |code| && HeadAt(code, i) == Some(r) && p in RegionTargets(code, r)
    requires forall k: nat :: PlainHead(code, k)
    ensures p in ForTargets(code)
  {
    HeadIsFound(code, 0, i, r);
    InForTargets(code, r, p);
  }

  lemma {:induction false} InForTargets(code: string, r: Region, p: nat)
    requires r in HeadsFrom(code, 0) && p in RegionTargets(code, r)
    ensures p in ForTargets(code)
  {
    TargetsInRegion(code, HeadsFrom(code, 0), p);
  }

  lemma {:induction false} RegionOf(code: string, p: nat) returns (r: Region)
    requires p in ForTargets(code)
    ensures r in HeadsFrom(code, 0) && p in RegionTargets(code, r)
  {
    var regions := HeadsFrom(code, 0);
    TargetsInRegion(code, regions, p);
    var k :| 0 <= k < |regions| && p in RegionTargets(code, regions[k]);
    r := regions[k];
  }

  lemma {:induction false} FoundIsTarget(code: string, p: nat)
    requires NoEscapes(code) && PlainDots(code) && p in ForTargets(code) && forall k: nat :: PlainHead(code, k)
    ensures IsTarget(code, p)
  {
    var r := RegionOf(code, p);
    FoundIsHead(code, 0, r);
    var j: nat :| j < |code| && HeadAt(code, j) == Some(r);
    HeadBindsIff(code, j, r, p);
  }

  /** In plain code the targets of for-heads are those the scan finds. */
  lemma {:induction false} TargetsIff(code: string, p: nat)
    requires NoEscapes(code) && PlainDots(code) && forall i: nat :: PlainHead(code, i)
    ensures IsTarget(code, p) <==> p in ForTargets(code)
  {
    if i: nat, open: nat, e: nat :| HeadBinds(code, i, open, e, p) {
      BoundIsFound(code, i, open, e, p);
      TargetIsFound(code, i, Region(open + 1, e), p);
    }
    if p in ForTargets(code) { FoundIsTarget(code, p); }
  }
}
