/** Bodies for which the hoister of pkg/tc39/hoist.go declares a name that is read there, one for each way in
    which it mistakes the body, and one for which it declares a keyword. */
module OverlookedReads {
  import opened Bytes
  import opened Types
  import ML = MaskLiterals
  import Id = Identifiers
  import opened BindingGrammar
  import opened PatternWalk
  import opened ForHeads
  import Hoist
  import TextOverlay
  import BL = BodyLexing
  import opened EcmaPatterns
  import opened BodyNames
  import opened PlainHeads
  import BC = BodyCode

  function NoRegex(): nat -> bool {
    (k: nat) => false
  }

  function SlashesAt(i: nat, j: nat): nat -> bool {
    (k: nat) => k == i || k == j
  }

  // ---------------------------------------------------------------- the masked text, byte by byte

  lemma {:induction false} CodeByte(src: string, k: nat)
    requires k < |src| && ML.At(src, k) == ML.Code && !ML.IsQuote(src[k])
    requires BL.IsCodeByte(src[k], BL.Behind(src, k))
    ensures ML.At(src, k + 1) == ML.Code && ML.Masked(src)[k] == src[k]
  {
    ML.Advance(src, k);
  }

  lemma {:induction false} OpenQuote(src: string, k: nat)
    requires k < |src| && ML.At(src, k) == ML.Code && ML.IsQuote(src[k])
    ensures ML.At(src, k + 1) == ML.Quoted(src[k]) && ML.Masked(src)[k] == src[k]
  {
    ML.Advance(src, k);
  }

  lemma {:induction false} CloseQuote(src: string, k: nat)
    requires k < |src| && ML.At(src, k) == ML.Quoted(src[k])
    ensures ML.At(src, k + 1) == ML.Code && ML.Masked(src)[k] == src[k]
  {
    ML.Advance(src, k);
  }

  lemma {:induction false} QuotedRun(src: string, k: nat, end: nat, q: char)
    requires k <= end <= |src| && ML.At(src, k) == ML.Quoted(q)
    requires forall i :: k <= i < end ==> src[i] != q && src[i] != '\\'
    ensures ML.At(src, end) == ML.Quoted(q)
    ensures forall i :: k <= i < end ==> ML.Masked(src)[i] == ML.Blank(src[i])
    decreases end - k
  {
    if k == end {
    } else {
      ML.Advance(src, k);
      QuotedRun(src, k + 1, end, q);
    }
  }

  predicate CodeTail(src: string, k: nat) {
    k <= |src| && forall i: nat :: k <= i < |src| ==> !ML.IsQuote(src[i]) && BL.IsCodeByte(src[i], BL.Behind(src, i))
  }

  predicate PlainTail(src: string, k: nat) {
    k <= |src| && forall i :: k <= i < |src| ==> !ML.IsQuote(src[i]) && src[i] != '/'
  }

  /** From code on, text without quotes and comments is masked as it is. */
  lemma {:induction false} PlainFrom(src: string, k: nat)
    requires CodeTail(src, k) && ML.At(src, k) == ML.Code
    ensures forall i :: k <= i < |src| ==> ML.Masked(src)[i] == src[i]
    decreases |src| - k
  {
    if k == |src| {
    } else {
      CodeByte(src, k);
      PlainFrom(src, k + 1);
    }
  }

  // ---------------------------------------------------------------- the code, byte by byte

  const PLAIN := BL.State(BL.Plain, [])

  lemma {:induction false} PlainByte(src: string, rx: nat -> bool, k: nat)
    requires k < |src| && BL.StateAt(src, rx, k) == PLAIN && !ML.IsQuote(src[k]) && src[k] != '/'
    ensures BL.StateAt(src, rx, k + 1) == PLAIN && BL.CodeOf(src, rx)[k] == src[k]
  {
    BL.StateNext(src, rx, k);
  }

  lemma {:induction false} PlainOn(src: string, rx: nat -> bool, k: nat, j: nat)
    requires PlainTail(src, k) && BL.StateAt(src, rx, k) == PLAIN && k <= j <= |src|
    ensures BL.StateAt(src, rx, j) == PLAIN
    decreases j - k
  {
    if k < j {
      PlainByte(src, rx, k);
      PlainOn(src, rx, k + 1, j);
    }
  }

  lemma {:induction false} CodeFrom(src: string, rx: nat -> bool, k: nat)
    requires PlainTail(src, k) && BL.StateAt(src, rx, k) == PLAIN
    ensures forall i :: k <= i < |src| ==> BL.CodeOf(src, rx)[i] == src[i]
  {
    forall i | k <= i < |src| ensures BL.CodeOf(src, rx)[i] == src[i] {
      PlainOn(src, rx, k, i);
      PlainByte(src, rx, i);
    }
  }

  lemma {:induction false} AllPlain(src: string, rx: nat -> bool)
    requires PlainTail(src, 0)
    ensures ML.Masked(src) == src && BL.CodeOf(src, rx) == src
  {
    ML.PlainCodeUnchanged(src);
    assert BL.StateAt(src, rx, 0) == PLAIN;
    CodeFrom(src, rx, 0);
  }

  lemma {:induction false} CodeAt(b: string, rx: nat -> bool, k: nat, zone: BL.Zone)
    requires k < |b| && BL.StateAt(b, rx, k).zone == zone
    ensures BL.CodeOf(b, rx)[k] == if BL.Kept(zone, b[k], BL.Behind(b, k)) then b[k] else ML.Blank(b[k])
  {
  }

  lemma {:induction false} CodeOrBlank(b: string, rx: nat -> bool, k: nat)
    requires k < |b|
    ensures BL.CodeOf(b, rx)[k] == b[k] || BL.CodeOf(b, rx)[k] == ML.Blank(b[k])
  {
  }

  lemma {:induction false} NoEscapesIn(b: string, rx: nat -> bool)
    requires NoEscapes(b)
    ensures NoEscapes(BL.CodeOf(b, rx))
  {
    forall k | 0 <= k < |b| ensures BL.CodeOf(b, rx)[k] != '\\' && BL.CodeOf(b, rx)[k] != '#' {
      CodeOrBlank(b, rx, k);
    }
  }

  // ---------------------------------------------------------------- reads

  /** The letter at byte `p` is a name of its own. */
  predicate Single(code: string, p: nat, c: char) {
    p + 1 < |code| && code[p] == c && IsIdentStart(c) && !IsIdentPart(code[p + 1]) &&
    (p > 0 ==> !IsIdentPart(code[p - 1]))
  }

  lemma {:induction false} SingleUsed(code: string, p: nat)
    requires NoEscapes(code) && Single(code, p, 'x') && !IsPart(code, p)
    ensures Uses(code, p, "x")
  {
    PlainNameAt(code, p);
    PlainName(code, p);
    assert Id.IdentEnd(code, p + 1) == p + 1;
    assert code[p..p + 1] == "x";
  }

  /** Behind a byte that is neither blank, dot nor hash stands no property. */
  lemma {:induction false} NotPart(code: string, p: nat)
    requires 0 < p <= |code| && !IsBlank(code[p - 1]) && code[p - 1] != '.' && code[p - 1] != '#'
    ensures !IsPart(code, p)
  {
  }

  lemma {:induction false} NotBoundBefore(code: string, p: nat)
    requires p <= |code| && forall k :: 0 <= k < p ==> code[k] != 'f'
    ensures !IsTarget(code, p)
  {
    if i: nat, open: nat, e: nat :| HeadBinds(code, i, open, e, p) {
      HeadParts(code, i, open, e, p);
      TargetInBinding(code, i, open, e, p);
    }
  }

  lemma {:induction false} ReadBefore(b: string, rx: nat -> bool, p: nat)
    requires NoEscapes(b) && p < |b| && forall k :: 0 <= k < p ==> b[k] != 'f'
    requires Single(BL.CodeOf(b, rx), p, 'x') && !IsPart(BL.CodeOf(b, rx), p)
    ensures BC.Reads(b, rx, p, "x")
  {
    NoEscapesIn(b, rx);
    SingleUsed(BL.CodeOf(b, rx), p);
    forall k: nat | k < p ensures BL.CodeOf(b, rx)[k] != 'f' { CodeOrBlank(b, rx, k); }
    NotBoundBefore(BL.CodeOf(b, rx), p);
  }

  predicate Apart(c: char) {
    !IsIdentPart(c) && !IsBlank(c) && c != '.' && c != '#'
  }

  lemma {:induction false} ReadBetween(b: string, rx: nat -> bool, p: nat)
    requires NoEscapes(b) && 0 < p && p + 1 < |b| && forall k :: 0 <= k < p ==> b[k] != 'f'
    requires Apart(BL.CodeOf(b, rx)[p - 1]) && BL.CodeOf(b, rx)[p] == 'x' && Apart(BL.CodeOf(b, rx)[p + 1])
    ensures BC.Reads(b, rx, p, "x")
  {
    NotPart(BL.CodeOf(b, rx), p);
    ReadBefore(b, rx, p);
  }

  lemma {:induction false} ForStarts(code: string, i: nat)
    ensures IsWord(code, i, "for") ==> code[i] == 'f'
  {
    if IsWord(code, i, "for") { SpelltByte(code, i, "for", 0); }
  }

  lemma {:induction false} TargetInRegion(code: string, start: nat, end: nat, p: nat)
    requires 0 < start <= end <= |code| && code[start - 1] == '(' && p in BindingTargets(TokensFrom(code, start, end))
    ensures start <= p
  {
    var toks := TokensFrom(code, start, end);
    TargetIsNoMember(code, start, end, p);
    var name :| Token(Ident(name), p) in toks;
    var k: nat :| k < |toks| && toks[k].pos == p;
    TokensIncrease(code, start, end, k, k);
  }

  lemma {:induction false} OpensBehind(code: string, i: nat, open: nat)
    requires OpensHead(code, i, open)
    ensures i < open < |code| && code[open] == '(' && code[i] == 'f'
  {
    ForStarts(code, i);
  }

  lemma {:induction false} TargetInBinding(code: string, i: nat, open: nat, e: nat, p: nat)
    requires OpensHead(code, i, open) && open < e <= |code| && BindsAt(TokensFrom(code, open + 1, e), p)
    ensures code[i] == 'f' && i < open < p
  {
    OpensBehind(code, i, open);
    BindsAreTargets(TokensFrom(code, open + 1, e), p);
    TargetInRegion(code, open + 1, e, p);
  }

  // ---------------------------------------------------------------- declared names

  /** A name that is a target, and whose first letter otherwise starts properties, is declared. */
  lemma {:induction false} LoneTarget(body: string, p: nat, name: string)
    requires p in ForTargets(ML.Masked(body)) && name != ""
    requires p <= |body| && Id.OccurrenceAt(ML.Masked(body), p).name == name
    requires forall k: nat :: k < |body| && ML.Masked(body)[k] == name[0] && k != p ==>
               Id.IsMember(ML.Masked(body), k)
    ensures BC.Declares(body, name)
  {
    var code := ML.Masked(body);
    forall q: nat | Id.Occurs(code, q) && Id.OccurrenceAt(code, q).name == name ensures q in ForTargets(code) {
      assert Id.IdentEnd(code, q) > q;
      assert code[q] == Id.OccurrenceAt(code, q).name[0];
    }
    assert Hoist.OnlyTargets(code, name);
    Hoist.HoistExact(body);
  }

  lemma {:induction false} SingleName(code: string, p: nat)
    requires Single(code, p, 'x')
    ensures Id.OccurrenceAt(code, p).name == "x"
  {
    assert Id.IdentEnd(code, p + 1) == p + 1;
    assert code[p..p + 1] == "x";
  }

  // ---------------------------------------------------------------- heads, byte by byte

  predicate IsForParen(code: string, q: nat) {
    q + 3 < |code| && (q > 0 ==> !IsIdentPart(code[q - 1])) &&
    code[q] == 'f' && code[q + 1] == 'o' && code[q + 2] == 'r' && code[q + 3] == '('
  }

  lemma {:induction false} HeadBehindFor(code: string, q: nat)
    requires IsForParen(code, q)
    ensures WordAt(code, q, "for") && ParenSpot(code, q) == q + 3
    ensures HeadAt(code, q) ==
            match EndFrom(code, q + 4, 1) case None => None case Some(e) => Some(Region(q + 4, e))
  {
    assert code[q..q + 3] == "for";
    assert AfterBlanks(code, q + 3) == q + 3;
    WordStarts(code, q + 3, "await");
    HeadAtParen(code, q, q + 3);
  }

  lemma {:induction false} TargetsOfFirst(code: string, q: nat, r: Region)
    requires q < |code| && HeadAt(code, q) == Some(r) && forall k :: 0 <= k < q ==> code[k] != 'f'
    ensures RegionTargets(code, r) <= ForTargets(code)
  {
    NoHeads(code, 0, q);
    assert HeadsFrom(code, q) == [r] + HeadsFrom(code, r.end);
    assert HeadsFrom(code, 0)[0] == r;
  }

  /** The targets of the first head, which stands at byte `q` and whose binding ends at `e`. */
  lemma {:induction false} FirstHead(code: string, q: nat, e: nat)
    requires IsForParen(code, q) && EndFrom(code, q + 4, 1) == Some(e) && forall k :: 0 <= k < q ==> code[k] != 'f'
    ensures RegionTargets(code, Region(q + 4, e)) <= ForTargets(code)
  {
    HeadBehindFor(code, q);
    TargetsOfFirst(code, q, Region(q + 4, e));
  }

  /** The search steps over a byte that starts no keyword and is no semicolon. */
  lemma {:induction false} Over(code: string, i: nat, depth: nat)
    requires i < |code| && depth > 0 && (depth == 1 ==> !ClosesBracket(code[i]))
    requires code[i] != 'o' && code[i] != 'i' && code[i] != ';'
    ensures EndFrom(code, i, depth) ==
            EndFrom(code, i + 1,
              if OpensBracket(code[i]) then depth + 1 else if ClosesBracket(code[i]) then depth - 1 else depth)
  {
    NotAKeyword(code, i);
  }

  lemma {:induction false} KeywordEnds(code: string, i: nat)
    requires 0 < i && i + 2 < |code| && !IsIdentPart(code[i - 1]) && !IsIdentPart(code[i + 2])
    requires (code[i] == 'o' && code[i + 1] == 'f') || (code[i] == 'i' && code[i + 1] == 'n')
    ensures EndFrom(code, i, 1) == Some(i)
  {
    assert code[i..i + 2] == "of" || code[i..i + 2] == "in";
    assert KeywordAt(code, i);
  }

  /** A byte that is a token of its own. */
  lemma {:induction false} OneByteToken(code: string, i: nat, end: nat)
    requires i < end <= |code| && !IsBlank(code[i]) && !IsIdentStart(code[i]) && code[i] != '.'
    requires code[i] == '=' && i + 1 < end ==> code[i + 1] != '=' && code[i + 1] != '>'
    ensures TokensFrom(code, i, end) == [Token(PunctOf(code[i]), i)] + TokensFrom(code, i + 1, end)
  {
  }

  lemma {:induction false} OneLetterToken(code: string, i: nat, end: nat)
    requires i + 1 < end <= |code| && IsIdentStart(code[i]) && !IsIdentPart(code[i + 1])
    ensures TokensFrom(code, i, end) == [Token(Ident([code[i]]), i)] + TokensFrom(code, i + 1, end)
  {
    assert RunEnd(code, i + 1, end) == i + 1;
    assert code[i..i + 1] == [code[i]];
  }

  lemma {:induction false} LastBlank(code: string, end: nat)
    requires 0 < end <= |code| && IsBlank(code[end - 1])
    ensures TokensFrom(code, end - 1, end) == []
  {
    assert TokensFrom(code, end, end) == [];
  }

  /** `for(x of `, or `in`, from byte `q` on. */
  predicate BindsX(code: string, q: nat) {
    IsForParen(code, q) && q + 8 < |code| && code[q + 4] == 'x' && code[q + 5] == ' ' &&
    code[q + 6] == 'o' && code[q + 7] == 'f' && code[q + 8] == ' '
  }

  lemma {:induction false} XIsTarget(code: string, q: nat)
    requires BindsX(code, q) && forall k :: 0 <= k < q ==> code[k] != 'f'
    ensures q + 4 in ForTargets(code) && Single(code, q + 4, 'x')
  {
    Over(code, q + 4, 1);
    Over(code, q + 5, 1);
    KeywordEnds(code, q + 6);
    FirstHead(code, q, q + 6);
    OneLetterToken(code, q + 4, q + 6);
    LastBlank(code, q + 6);
    assert TokensFrom(code, q + 4, q + 6) == [Token(Ident("x"), q + 4)];
  }

  /** A body whose first head is `for(x of`, with no other `x` in the masked text but properties. */
  lemma {:induction false} HeadDeclares(body: string, q: nat)
    requires BindsX(ML.Masked(body), q) && forall k :: 0 <= k < q ==> ML.Masked(body)[k] != 'f'
    requires forall k: nat :: k < |body| && ML.Masked(body)[k] == 'x' && k != q + 4 ==>
               Id.IsMember(ML.Masked(body), k)
    ensures BC.Declares(body, "x")
  {
    XIsTarget(ML.Masked(body), q);
    SingleName(ML.Masked(body), q + 4);
    LoneTarget(body, q + 4, "x");
  }

  /** The same of a body without quotes and slashes. */
  lemma {:induction false} PlainHeadDeclares(b: string, q: nat)
    requires PlainTail(b, 0) && BindsX(b, q) && forall k :: 0 <= k < q ==> b[k] != 'f'
    requires forall k: nat :: k < |b| && b[k] == 'x' && k != q + 4 ==> Id.IsMember(b, k)
    ensures BC.Declares(b, "x")
  {
    ML.PlainCodeUnchanged(b);
    HeadDeclares(b, q);
  }

  lemma {:induction false} PlainLoneTarget(b: string, p: nat, name: string)
    requires PlainTail(b, 0) && p in ForTargets(b) && name != ""
    requires p <= |b| && Id.OccurrenceAt(b, p).name == name
    requires forall k: nat :: k < |b| && b[k] == name[0] ==> k == p
    ensures BC.Declares(b, name)
  {
    ML.PlainCodeUnchanged(b);
    LoneTarget(b, p, name);
  }

  // ---------------------------------------------------------------- a substitution

  const SUBSTITUTION := "`${x}`;for(x of y);"

  /** A template whose one substitution reads `x`, and a head that binds it. */
  ghost predicate TemplateThenHead(b: string) {
    |b| == 19 && b[0] == '`' && b[1] == '$' && b[2] == '{' && b[3] == 'x' && b[4] == '}' && b[5] == '`' &&
    BindsX(b, 7) && PlainTail(b, 6) && NoEscapes(b) && forall k: nat :: 6 <= k < |b| && b[k] == 'x' ==> k == 11
  }

  lemma {:induction false} TemplateMasked(b: string)
    requires TemplateThenHead(b) && b[6] == ';'
    ensures BC.Declares(b, "x")
  {
    OpenQuote(b, 0);
    QuotedRun(b, 1, 5, '`');
    CloseQuote(b, 5);
    PlainFrom(b, 6);
    HeadDeclares(b, 7);
  }

  lemma {:induction false} TemplateStates(b: string, rx: nat -> bool)
    requires TemplateThenHead(b)
    ensures BL.StateAt(b, rx, 2).zone == BL.BraceOpen
    ensures BL.StateAt(b, rx, 3) == BL.StateAt(b, rx, 4) == BL.State(BL.Plain, [0])
  {
    assert BL.StateAt(b, rx, 0) == PLAIN;
    BL.StateNext(b, rx, 0);
    BL.StateNext(b, rx, 1);
    BL.StateNext(b, rx, 2);
    BL.StateNext(b, rx, 3);
  }

  lemma {:induction false} TemplateZones(b: string, rx: nat -> bool, k: nat)
    requires TemplateThenHead(b) && k < |b|
    ensures var st := BL.StateAt(b, rx, k);
            if 2 <= k <= 4 then BL.Substituted(st) && st.zone == (if k == 2 then BL.BraceOpen else BL.Plain)
            else st == if k == 1 || k == 5 then BL.State(BL.Quoted('`'), []) else PLAIN
  {
    TemplateStates(b, rx);
    BL.StateNext(b, rx, 0);
    BL.StateNext(b, rx, 4);
    BL.StateNext(b, rx, 5);
    if k > 6 { PlainOn(b, rx, 6, k); }
  }

  lemma {:induction false} TemplateCodeByte(b: string, rx: nat -> bool, k: nat)
    requires TemplateThenHead(b) && k < |b|
    ensures BL.CodeOf(b, rx)[k] == if k == 1 then ' ' else b[k]
    ensures BL.BareCode(b, rx)[k] == if 1 <= k <= 4 then ' ' else b[k]
  {
    TemplateZones(b, rx, k);
    var st := BL.StateAt(b, rx, k);
    assert BL.InSubstitution(b, rx, k) <==> 2 <= k <= 4;
    CodeAt(b, rx, k, st.zone);
  }

  lemma {:induction false} TemplateReads(b: string, rx: nat -> bool)
    requires TemplateThenHead(b)
    ensures BC.Reads(b, rx, 3, "x")
  {
    TemplateCodeByte(b, rx, 2);
    TemplateCodeByte(b, rx, 3);
    TemplateCodeByte(b, rx, 4);
    ReadBetween(b, rx, 3);
  }

  lemma {:induction false} SubstitutionSpelt()
    ensures TemplateThenHead(SUBSTITUTION) && SUBSTITUTION[6] == ';'
  {
  }

  /** The hoister declares `x`, which the substitution reads. */
  lemma {:induction false} SubstitutionIsOverlooked()
    ensures BC.Declares(SUBSTITUTION, "x") && BC.Reads(SUBSTITUTION, NoRegex(), 3, "x")
  {
    SubstitutionSpelt();
    TemplateMasked(SUBSTITUTION);
    TemplateReads(SUBSTITUTION, NoRegex());
  }

  // ---------------------------------------------------------------- a quote in a regular expression

  const QUOTE := "/'/;x;/'/;for(x of y);"

  /** A read of `x` between two regular expressions that match a quote, and a head that binds it. */
  ghost predicate QuotesThenHead(b: string) {
    |b| == 22 && b[0] == '/' && b[1] == '\'' && b[2] == '/' && b[3] == ';' && b[4] == 'x' && b[5] == ';' &&
    b[6] == '/' && b[7] == '\'' && b[8] == '/' && b[9] == ';' && BindsX(b, 10) && PlainTail(b, 9) &&
    NoEscapes(b) && forall k: nat :: 8 <= k < |b| && b[k] == 'x' ==> k == 14
  }

  lemma {:induction false} QuotesMasked(b: string)
    requires QuotesThenHead(b)
    ensures BC.Declares(b, "x")
  {
    CodeByte(b, 0);
    OpenQuote(b, 1);
    QuotedRun(b, 2, 7, '\'');
    CloseQuote(b, 7);
    CodeByte(b, 8);
    PlainFrom(b, 9);
    HeadDeclares(b, 10);
  }

  lemma {:induction false} QuoteStates(b: string, rx: nat -> bool)
    requires QuotesThenHead(b) && rx(0)
    ensures BL.StateAt(b, rx, 3).zone == BL.Flags && BL.StateAt(b, rx, 4) == BL.StateAt(b, rx, 5) == PLAIN
  {
    assert BL.StateAt(b, rx, 0) == PLAIN;
    BL.StateNext(b, rx, 0);
    BL.StateNext(b, rx, 1);
    BL.StateNext(b, rx, 2);
    BL.StateNext(b, rx, 3);
    BL.StateNext(b, rx, 4);
  }

  lemma {:induction false} QuoteReads(b: string, rx: nat -> bool)
    requires QuotesThenHead(b) && rx(0)
    ensures BC.Reads(b, rx, 4, "x")
  {
    QuoteStates(b, rx);
    CodeAt(b, rx, 3, BL.Flags);
    CodeAt(b, rx, 4, BL.Plain);
    CodeAt(b, rx, 5, BL.Plain);
    ReadBetween(b, rx, 4);
  }

  lemma {:induction false} QuotesAreOverlooked(b: string, rx: nat -> bool)
    requires QuotesThenHead(b) && rx(0)
    ensures BC.Declares(b, "x") && BC.Reads(b, rx, 4, "x")
  {
    QuotesMasked(b);
    QuoteReads(b, rx);
  }

  lemma {:induction false} QuoteSpelt()
    ensures QuotesThenHead(QUOTE)
  {
  }

  /** The hoister declares `x`, which is read between two regular expressions that it takes for quotes. */
  lemma {:induction false} QuoteIsOverlooked()
    ensures BC.Declares(QUOTE, "x") && BC.Reads(QUOTE, SlashesAt(0, 6), 4, "x")
  {
    QuoteSpelt();
    QuotesAreOverlooked(QUOTE, SlashesAt(0, 6));
  }

  // ---------------------------------------------------------------- a head in a regular expression

  const SPELT_HEAD := "[/[for([a=[]/,x] in y;"

  /** An array of a regular expression, a class of characters, and a read of `x`, looked for in `y`. */
  ghost predicate HeadInClass(b: string) {
    |b| == 22 && b[0] == '[' && b[1] == '/' && b[2] == '[' && IsForParen(b, 3) && b[7] == '[' && b[8] == 'a' &&
    b[9] == '=' && b[10] == '[' && b[11] == ']' && b[12] == '/' && b[13] == ',' && b[14] == 'x' && b[15] == ']' &&
    b[16] == ' ' && b[17] == 'i' && b[18] == 'n' && b[19] == ' ' && b[20] == 'y' && b[21] == ';' &&
    NoEscapes(b) && forall k: nat :: k < |b| && (b[k] == 'f' || b[k] == 'x') ==> k == 3 || k == 14
  }

  ghost predicate SlashesOf(b: string) {
    forall k: nat :: k < |b| ==> !ML.IsQuote(b[k]) && (b[k] == '/' ==> k == 1 || k == 12)
  }

  lemma {:induction false} ClassTail(b: string)
    requires HeadInClass(b) && SlashesOf(b)
    ensures CodeTail(b, 0)
  {
  }

  lemma {:induction false} ClassEnd(b: string)
    requires HeadInClass(b)
    ensures EndFrom(b, 7, 1) == Some(17)
  {
    Over(b, 7, 1);
    Over(b, 8, 2);
    Over(b, 9, 2);
    Over(b, 10, 2);
    Over(b, 11, 3);
    Over(b, 12, 2);
    Over(b, 13, 2);
    Over(b, 14, 2);
    Over(b, 15, 2);
    Over(b, 16, 1);
    KeywordEnds(b, 17);
  }

  const INNER := [Token(LBrack, 10), Token(RBrack, 11), Token(Opaque, 12)]

  /** What the head in the class binds: `a`, with a default, and `x`. */
  function SpeltItems(): Items {
    var last := Cons(Sep(Token(Comma, 13)), Cons(Target(Token(Ident("x"), 14)), Nil));
    var inner := Cons(Target(Token(Ident("a"), 8)), Cons(Default(Token(Assign, 9), INNER), last));
    Cons(Nested(Token(LBrack, 7), inner, Token(RBrack, 15)), Nil)
  }

  /** The tokens behind the default, those from its expression on, and all. */
  lemma {:induction false} SpeltTail(b: string) returns (tail: seq<Token>)
    requires HeadInClass(b)
    ensures tail == TokensFrom(b, 13, 17) == [Token(Comma, 13)] + ([Token(Ident("x"), 14)] + ([Token(RBrack, 15)] + []))
  {
    OneByteToken(b, 13, 17);
    OneLetterToken(b, 14, 17);
    OneByteToken(b, 15, 17);
    LastBlank(b, 17);
    assert [b[14]] == "x";
    tail := TokensFrom(b, 13, 17);
  }

  lemma {:induction false} SpeltDefault(b: string) returns (tail: seq<Token>)
    requires HeadInClass(b)
    ensures tail == [Token(Comma, 13)] + ([Token(Ident("x"), 14)] + ([Token(RBrack, 15)] + []))
    ensures TokensFrom(b, 10, 17) == INNER + tail
  {
    tail := SpeltTail(b);
    OneByteToken(b, 12, 17);
    OneByteToken(b, 11, 17);
    OneByteToken(b, 10, 17);
  }

  lemma {:induction false} SpeltTokens(b: string)
    requires HeadInClass(b)
    ensures TokensFrom(b, 7, 17) == Yield(SpeltItems(), [])
  {
    var tail := SpeltDefault(b);
    SpeltStart(b);
    SpeltYield(tail);
  }

  lemma {:induction false} SpeltStart(b: string)
    requires HeadInClass(b)
    ensures TokensFrom(b, 7, 17) ==
            [Token(LBrack, 7)] + ([Token(Ident("a"), 8)] + ([Token(Assign, 9)] + TokensFrom(b, 10, 17)))
  {
    OneByteToken(b, 9, 17);
    OneLetterToken(b, 8, 17);
    OneByteToken(b, 7, 17);
    assert [b[8]] == "a";
  }

  lemma {:induction false} SpeltYield(tail: seq<Token>)
    requires tail == [Token(Comma, 13)] + ([Token(Ident("x"), 14)] + ([Token(RBrack, 15)] + []))
    ensures Yield(SpeltItems(), []) ==
            [Token(LBrack, 7)] + ([Token(Ident("a"), 8)] + ([Token(Assign, 9)] + (INNER + tail)))
  {
    var close := [Token(RBrack, 15)] + [];
    var sep := Cons(Sep(Token(Comma, 13)), Cons(Target(Token(Ident("x"), 14)), Nil));
    assert Yield(Cons(Target(Token(Ident("x"), 14)), Nil), close) == [Token(Ident("x"), 14)] + close;
    assert Yield(sep, close) == tail;
    assert Yield(Cons(Default(Token(Assign, 9), INNER), sep), close) == [Token(Assign, 9)] + (INNER + tail);
  }

  lemma {:induction false} SpeltFits()
    ensures WellFormed(SpeltItems(), TOP) && 14 in Targets(SpeltItems())
  {
    assert INNER[1..] == [Token(RBrack, 11), Token(Opaque, 12)];
    assert INNER[1..][1..] == [Token(Opaque, 12)];
    assert INNER[1..][1..][1..] == [];
    assert IsDefaultExpr(INNER[1..][1..], 0);
    assert IsDefaultExpr(INNER[1..], 1);
    assert IsDefaultExpr(INNER, 0);
    var f := Fresh(Array).(expectSep := true);
    var last := Cons(Target(Token(Ident("x"), 14)), Nil);
    assert WellFormed(last, Fresh(Array)) && 14 in Targets(last);
    var sep := Cons(Sep(Token(Comma, 13)), last);
    assert WellFormed(sep, f) && 14 in Targets(sep);
    var rest := Cons(Default(Token(Assign, 9), INNER), sep);
    assert WellFormed(rest, f) && 14 in Targets(rest);
    var all := Cons(Target(Token(Ident("a"), 8)), rest);
    assert WellFormed(all, Fresh(Array)) && 14 in Targets(all);
  }

  lemma {:induction false} SpeltTarget(b: string)
    requires HeadInClass(b)
    ensures 14 in ForTargets(b)
  {
    ClassEnd(b);
    FirstHead(b, 3, 17);
    SpeltTokens(b);
    SpeltFits();
    OneByteToken(b, 7, 17);
    CommitsTheForest(TokensFrom(b, 7, 17));
  }

  lemma {:induction false} ClassDeclares(b: string)
    requires HeadInClass(b) && SlashesOf(b)
    ensures BC.Declares(b, "x")
  {
    ClassTail(b);
    PlainFrom(b, 0);
    assert ML.Masked(b) == b;
    SpeltTarget(b);
    SingleName(b, 14);
    LoneTarget(b, 14, "x");
  }

  lemma {:induction false} ClassRun(b: string, rx: nat -> bool, k: nat)
    requires HeadInClass(b) && rx(1) && 3 <= k <= 11
    ensures BL.StateAt(b, rx, k) == BL.State(BL.Regex(true), [])
  {
    if k == 3 {
      assert BL.StateAt(b, rx, 0) == PLAIN;
      BL.StateNext(b, rx, 0);
      BL.StateNext(b, rx, 1);
      BL.StateNext(b, rx, 2);
    } else {
      ClassRun(b, rx, k - 1);
      BL.StateNext(b, rx, k - 1);
      ClassByte(b, k - 1);
      StaysInClass(rx(k - 1), BL.LineEnds(b, k - 1), b[k - 1], BL.Behind(b, k - 1));
    }
  }

  lemma {:induction false} ClassByte(b: string, k: nat)
    requires HeadInClass(b) && 3 <= k < 11
    ensures b[k] != '\\' && b[k] != ']'
  {
  }

  lemma {:induction false} StaysInClass(regex: bool, ends: bool, c: char, next: char)
    requires c != '\\' && c != ']'
    ensures BL.Step(regex, ends, BL.State(BL.Regex(true), []), c, next) == BL.State(BL.Regex(true), [])
  {
  }

  lemma {:induction false} BehindClass(b: string, rx: nat -> bool)
    requires HeadInClass(b) && BL.StateAt(b, rx, 11) == BL.State(BL.Regex(true), [])
    ensures BL.StateAt(b, rx, 13) == BL.State(BL.Flags, [])
    ensures BL.StateAt(b, rx, 14) == BL.StateAt(b, rx, 15) == PLAIN
  {
    BL.StateNext(b, rx, 11);
    BL.StateNext(b, rx, 12);
    BL.StateNext(b, rx, 13);
    BL.StateNext(b, rx, 14);
  }

  lemma {:induction false} ClassCode(b: string, rx: nat -> bool)
    requires HeadInClass(b) && rx(1)
    ensures var code := BL.CodeOf(b, rx); code[3] == ' ' && code[13] == ',' && code[14] == 'x' && code[15] == ']'
  {
    ClassRun(b, rx, 3);
    ClassRun(b, rx, 11);
    BehindClass(b, rx);
    CodeAt(b, rx, 3, BL.Regex(true));
    CodeAt(b, rx, 13, BL.Flags);
    CodeAt(b, rx, 14, BL.Plain);
    CodeAt(b, rx, 15, BL.Plain);
  }

  lemma {:induction false} ClassReads(b: string, rx: nat -> bool)
    requires HeadInClass(b) && rx(1)
    ensures BC.Reads(b, rx, 14, "x")
  {
    var code := BL.CodeOf(b, rx);
    ClassCode(b, rx);
    NoEscapesIn(b, rx);
    NotPart(code, 14);
    SingleUsed(code, 14);
    forall k: nat | k < 14 ensures code[k] != 'f' { CodeOrBlank(b, rx, k); }
    NotBoundBefore(code, 14);
  }

  lemma {:induction false} ClassIsOverlooked(b: string, rx: nat -> bool)
    requires HeadInClass(b) && SlashesOf(b) && rx(1)
    ensures BC.Declares(b, "x") && BC.Reads(b, rx, 14, "x")
  {
    ClassDeclares(b);
    ClassReads(b, rx);
  }

  lemma {:induction false} SpeltHeadSpelt()
    ensures HeadInClass(SPELT_HEAD)
  {
  }

  lemma {:induction false} SpeltHeadSlashes()
    ensures SlashesOf(SPELT_HEAD)
  {
  }

  /** The hoister declares `x`, which is read behind a regular expression whose letters it takes for a head:
      quotes and slashes aside, regular expressions can also spell bindings. */
  lemma {:induction false} SpeltHeadIsOverlooked()
    ensures BC.Declares(SPELT_HEAD, "x") && BC.Reads(SPELT_HEAD, SlashesAt(1, 1), 14, "x")
  {
    SpeltHeadSpelt();
    SpeltHeadSlashes();
    ClassIsOverlooked(SPELT_HEAD, SlashesAt(1, 1));
  }

  // ---------------------------------------------------------------- a member access on a pattern

  const MEMBER_TARGET := "for([x][y] of z);"

  ghost predicate TwoPatternsHead(b: string) {
    |b| == 17 && IsForParen(b, 0) && b[4] == '[' && b[5] == 'x' && b[6] == ']' && b[7] == '[' && b[8] == 'y' &&
    b[9] == ']' && b[10] == ' ' && b[11] == 'o' && b[12] == 'f' && b[13] == ' ' && PlainTail(b, 0) &&
    NoEscapes(b) && forall k: nat :: k < 12 && (b[k] == 'f' || b[k] == 'x') ==> k == 0 || k == 5
  }

  lemma {:induction false} TwoPatternsEnd(b: string)
    requires TwoPatternsHead(b)
    ensures EndFrom(b, 4, 1) == Some(11)
  {
    Over(b, 4, 1);
    Over(b, 5, 2);
    Over(b, 6, 2);
    Over(b, 7, 1);
    Over(b, 8, 2);
    Over(b, 9, 2);
    Over(b, 10, 1);
    KeywordEnds(b, 11);
  }

  lemma {:induction false} TwoPatternsTokens(b: string)
    requires TwoPatternsHead(b)
    ensures TokensFrom(b, 4, 11) == TwoPatterns("x", "y", 4)
  {
    OneByteToken(b, 4, 11);
    OneLetterToken(b, 5, 11);
    OneByteToken(b, 6, 11);
    OneByteToken(b, 7, 11);
    OneLetterToken(b, 8, 11);
    OneByteToken(b, 9, 11);
    LastBlank(b, 11);
  }

  /** A pattern's first bracket closes on its last token. */
  lemma {:induction false} PatternCloses(item: Item)
    requires IsPattern(item)
    ensures var toks := YieldItem(item, []); toks != [] && BalanceEnd(toks, 1, 1) == Some(|toks|)
  {
    var items := Cons(item, Nil);
    PatternIff(item);
    assert Yield(items, []) == YieldItem(item, []);
    AcceptsExactlyTheGrammar(YieldItem(item, []), items);
    OnePatternIff(YieldItem(item, []));
  }

  lemma {:induction false} NotOnePattern(x: string, y: string, at: nat, p: nat)
    ensures !BindsAt(TwoPatterns(x, y, at), p)
  {
    var toks := TwoPatterns(x, y, at);
    assert BalanceEnd(toks, 2, 1) == Some(3);
    assert BalanceEnd(toks, 1, 1) == Some(3);
    forall item | IsPattern(item) ensures YieldItem(item, []) != toks { PatternCloses(item); }
  }

  lemma {:induction false} BindingOfFirst(code: string, q: nat, end: nat, open: nat, e: nat)
    requires NoEscapes(code) && IsForParen(code, q) && EndFrom(code, q + 4, 1) == Some(end)
    requires q + 4 < |code| && !BL.IsSpaceByte(code[q + 4]) && code[q + 4] != 'o'
    requires OpensHead(code, q, open) && BindingEnds(code, open, e)
    ensures open == q + 3 && e == end
  {
    HeadBehindFor(code, q);
    OpensIff(code, q, open);
    LoopWordIff(code, open + 1, e);
    NoOf(code, q + 4);
  }

  lemma {:induction false} NoOf(code: string, i: nat)
    requires i < |code| && !BL.IsSpaceByte(code[i]) && code[i] != 'o'
    ensures forall of: nat :: AllSpace(code, i, of) ==> !IsWord(code, of, "of")
  {
    forall of: nat | AllSpace(code, i, of) ensures !IsWord(code, of, "of") {
      assert of == i;
      if BL.Spells(code, of, "of") { SpelltByte(code, of, "of", 0); }
    }
  }

  lemma {:induction false} MemberHeadBindsNone(b: string, i: nat, open: nat, e: nat)
    requires TwoPatternsHead(b)
    ensures !HeadBinds(b, i, open, e, 5)
  {
    if HeadBinds(b, i, open, e, 5) {
      HeadParts(b, i, open, e, 5);
      TargetInBinding(b, i, open, e, 5);
      TwoPatternsEnd(b);
      BindingOfFirst(b, 0, 11, open, e);
      TwoPatternsTokens(b);
      NotOnePattern("x", "y", 4, 5);
    }
  }

  lemma {:induction false} MemberNotBound(b: string)
    requires TwoPatternsHead(b)
    ensures !IsTarget(b, 5)
  {
    forall i: nat, open: nat, e: nat ensures !HeadBinds(b, i, open, e, 5) { MemberHeadBindsNone(b, i, open, e); }
  }

  lemma {:induction false} TargetsOfTokens(code: string, r: Region, toks: seq<Token>)
    requires r.start <= r.end <= |code| && TokensFrom(code, r.start, r.end) == toks
    ensures RegionTargets(code, r) == BindingTargets(toks)
  {
  }

  lemma {:induction false} TwoPatternsBound(b: string)
    requires TwoPatternsHead(b)
    ensures 5 in RegionTargets(b, Region(4, 11))
  {
    TwoPatternsTokens(b);
    SecondPatternAccepted("x", "y", 4);
    TargetsOfTokens(b, Region(4, 11), TwoPatterns("x", "y", 4));
  }

  lemma {:induction false} MemberIsTarget(b: string)
    requires TwoPatternsHead(b)
    ensures 5 in ForTargets(b)
  {
    TwoPatternsBound(b);
    TwoPatternsEnd(b);
    FirstHead(b, 0, 11);
  }

  lemma {:induction false} MemberDeclares(b: string)
    requires TwoPatternsHead(b) && forall k: nat :: k < |b| && b[k] == 'x' ==> k == 5
    ensures BC.Declares(b, "x")
  {
    MemberIsTarget(b);
    SingleName(b, 5);
    PlainLoneTarget(b, 5, "x");
  }

  lemma {:induction false} MemberReads(b: string, rx: nat -> bool)
    requires TwoPatternsHead(b)
    ensures BC.Reads(b, rx, 5, "x")
  {
    AllPlain(b, rx);
    NotPart(b, 5);
    SingleUsed(b, 5);
    MemberNotBound(b);
  }

  lemma {:induction false} MemberSpelt()
    ensures TwoPatternsHead(MEMBER_TARGET) && forall k: nat :: k < 17 && MEMBER_TARGET[k] == 'x' ==> k == 5
  {
  }

  /** The hoister declares `x`, of whose element `y` a for-head makes its target. */
  lemma {:induction false} MemberTargetIsOverlooked()
    ensures BC.Declares(MEMBER_TARGET, "x") && BC.Reads(MEMBER_TARGET, NoRegex(), 5, "x")
  {
    MemberSpelt();
    MemberDeclares(MEMBER_TARGET);
    MemberReads(MEMBER_TARGET, NoRegex());
  }

  // ---------------------------------------------------------------- a call of a property named for

  const FOR_CALL := "o.for([x] in y);"

  ghost predicate CallOfFor(b: string) {
    |b| == 16 && b[0] == 'o' && b[1] == '.' && IsForParen(b, 2) && b[6] == '[' && b[7] == 'x' && b[8] == ']' &&
    b[9] == ' ' && b[10] == 'i' && b[11] == 'n' && b[12] == ' ' && PlainTail(b, 0) && NoEscapes(b) &&
    forall k: nat :: k < |b| && (b[k] == 'f' || b[k] == 'x') ==> k == 2 || k == 7
  }

  lemma {:induction false} CallTokens(b: string)
    requires CallOfFor(b)
    ensures EndFrom(b, 6, 1) == Some(10)
    ensures TokensFrom(b, 6, 10) == [Token(LBrack, 6), Token(Ident("x"), 7), Token(RBrack, 8)]
  {
    Over(b, 6, 1);
    Over(b, 7, 2);
    Over(b, 8, 2);
    Over(b, 9, 1);
    KeywordEnds(b, 10);
    OneByteToken(b, 6, 10);
    OneLetterToken(b, 7, 10);
    OneByteToken(b, 8, 10);
    LastBlank(b, 10);
    assert [b[7]] == "x";
  }

  lemma {:induction false} CallTarget(b: string)
    requires CallOfFor(b)
    ensures 7 in ForTargets(b)
  {
    CallTokens(b);
    OnePatternBinds(Token(LBrack, 6), Token(Ident("x"), 7), Token(RBrack, 8));
    FirstHead(b, 2, 10);
  }

  lemma {:induction false} CallDeclares(b: string)
    requires CallOfFor(b)
    ensures BC.Declares(b, "x")
  {
    CallTarget(b);
    SingleName(b, 7);
    PlainLoneTarget(b, 7, "x");
  }

  lemma {:induction false} CallReads(b: string, rx: nat -> bool)
    requires CallOfFor(b)
    ensures BC.Reads(b, rx, 7, "x")
  {
    AllPlain(b, rx);
    NotPart(b, 7);
    SingleUsed(b, 7);
    CallNotBound(b);
  }

  lemma {:induction false} CallNotBound(b: string)
    requires CallOfFor(b)
    ensures !IsTarget(b, 7)
  {
    assert RunStart(b, 1) == 0;
    assert BackOver(b, 2) == 2;
    assert IsPart(b, 2);
    if i: nat, open: nat, e: nat :| HeadBinds(b, i, open, e, 7) {
      HeadParts(b, i, open, e, 7);
      TargetInBinding(b, i, open, e, 7);
    }
  }

  lemma {:induction false} CallSpelt()
    ensures CallOfFor(FOR_CALL)
  {
  }

  /** The hoister declares `x`, which is read in the argument of a call of a method named `for`. */
  lemma {:induction false} ForCallIsOverlooked()
    ensures BC.Declares(FOR_CALL, "x") && BC.Reads(FOR_CALL, NoRegex(), 7, "x")
  {
    CallSpelt();
    CallDeclares(FOR_CALL);
    CallReads(FOR_CALL, NoRegex());
  }

  // ---------------------------------------------------------------- a comment that ends at a carriage return

  const CR_COMMENT := "//\rx;\nfor(x of y);"

  ghost predicate CommentThenRead(b: string) {
    |b| == 18 && b[0] == '/' && b[1] == '/' && b[2] == '\r' && b[3] == 'x' && b[4] == ';' && b[5] == '\n' &&
    BindsX(b, 6) && PlainTail(b, 2) && NoEscapes(b) && forall k: nat :: 4 <= k < |b| && b[k] == 'x' ==> k == 10
  }

  lemma {:induction false} CommentMasked(b: string, k: nat)
    requires CommentThenRead(b) && 2 <= k <= 5
    ensures ML.At(b, k) == ML.Line && forall i :: 0 <= i < k ==> ML.Masked(b)[i] == ' '
  {
    if k == 2 {
      ML.Advance(b, 0);
      ML.Advance(b, 1);
    } else {
      CommentMasked(b, k - 1);
      ML.Advance(b, k - 1);
    }
  }

  lemma {:induction false} CommentDeclares(b: string)
    requires CommentThenRead(b)
    ensures BC.Declares(b, "x")
  {
    CommentMasked(b, 5);
    ML.Advance(b, 5);
    PlainFrom(b, 6);
    HeadDeclares(b, 6);
  }

  lemma {:induction false} CommentReads(b: string, rx: nat -> bool)
    requires CommentThenRead(b)
    ensures BC.Reads(b, rx, 3, "x")
  {
    var code := BL.CodeOf(b, rx);
    assert BL.StateAt(b, rx, 0) == PLAIN;
    BL.StateNext(b, rx, 0);
    BL.StateNext(b, rx, 1);
    BL.StateNext(b, rx, 2);
    CodeAt(b, rx, 0, BL.Plain);
    CodeAt(b, rx, 1, BL.LineOpen);
    CodeAt(b, rx, 2, BL.Line);
    CodeFrom(b, rx, 3);
    assert BackOver(code, 1) == 0;
    assert BackOver(code, 2) == 0;
    assert BackOver(code, 3) == 0;
    ReadBefore(b, rx, 3);
  }

  lemma {:induction false} CommentSpelt()
    ensures CommentThenRead(CR_COMMENT)
  {
  }

  /** The hoister declares `x`, which is read behind the end of a line comment. */
  lemma {:induction false} CommentIsOverlooked()
    ensures BC.Declares(CR_COMMENT, "x") && BC.Reads(CR_COMMENT, NoRegex(), 3, "x")
  {
    CommentSpelt();
    CommentDeclares(CR_COMMENT);
    CommentReads(CR_COMMENT, NoRegex());
  }

  // ---------------------------------------------------------------- an escape

  const ESCAPE := "\\u0078;for(x of y);"

  ghost predicate EscapeThenHead(b: string) {
    |b| == 19 && b[0] == '\\' && b[1] == 'u' && b[2] == '0' && b[3] == '0' && b[4] == '7' && b[5] == '8' &&
    b[6] == ';' && BindsX(b, 7) && PlainTail(b, 0) && forall k: nat :: k < |b| && b[k] == 'x' ==> k == 11
  }

  lemma {:induction false} EscapeMeansX(b: string)
    requires EscapeThenHead(b)
    ensures EscapeAt(b, 0) == Some(Piece('x', 6)) && EscapeAt(b, 6) == None
  {
    assert HexEnd(b, 6) == 6;
    assert HexEnd(b, 5) == 6;
    assert HexEnd(b, 4) == 6;
    assert HexEnd(b, 3) == 6;
    assert HexEnd(b, 2) == 6;
    assert b[2..6] == ['0', '0', '7', '8'];
    assert b[2..6][..3] == ['0', '0', '7'];
    assert b[2..6][..3][..2] == ['0', '0'];
    assert HexNumber(['0', '0']) == 0;
    assert HexNumber(b[2..6][..3]) == 7;
    assert HexNumber(b[2..6]) == 120;
  }

  lemma {:induction false} EscapeReads(b: string, rx: nat -> bool)
    requires EscapeThenHead(b)
    ensures BC.Reads(b, rx, 0, "x")
  {
    AllPlain(b, rx);
    EscapeMeansX(b);
    assert Spelling(b, 6) == "";
    assert NameAt(b, 0);
    NotBoundBefore(b, 0);
  }


  lemma {:induction false} EscapeSpelt()
    ensures EscapeThenHead(ESCAPE)
  {
  }

  /** The hoister declares `x`, which is read under an escape. */
  lemma {:induction false} EscapeIsOverlooked()
    ensures BC.Declares(ESCAPE, "x") && BC.Reads(ESCAPE, NoRegex(), 0, "x")
  {
    EscapeSpelt();
    PlainHeadDeclares(ESCAPE, 7);
    EscapeReads(ESCAPE, NoRegex());
  }

  // ---------------------------------------------------------------- a decimal point

  const POINT := "1.\nx;for(x of y);"

  ghost predicate PointThenRead(b: string) {
    |b| == 17 && b[0] == '1' && b[1] == '.' && b[2] == '\n' && b[3] == 'x' && b[4] == ';' && BindsX(b, 5) &&
    PlainTail(b, 0) && NoEscapes(b) && forall k: nat :: k < |b| && b[k] == 'x' ==> k == 3 || k == 9
  }

  lemma {:induction false} PointIsNumerals(b: string)
    requires PointThenRead(b)
    ensures Id.IsMember(b, 3) && !IsPart(b, 3)
  {
    assert BackOver(b, 2) == 2;
    assert BackOver(b, 3) == 2;
    assert RunStart(b, 0) == 0;
    assert RunStart(b, 1) == 0;
    assert b[0..1] == "1";
    assert NumeralDot(b, 1);
  }

  lemma {:induction false} PointDeclares(b: string)
    requires PointThenRead(b)
    ensures BC.Declares(b, "x")
  {
    PointIsNumerals(b);
    PlainHeadDeclares(b, 5);
  }

  lemma {:induction false} PointReads(b: string, rx: nat -> bool)
    requires PointThenRead(b)
    ensures BC.Reads(b, rx, 3, "x")
  {
    AllPlain(b, rx);
    PointIsNumerals(b);
    ReadBefore(b, rx, 3);
  }

  lemma {:induction false} PointSpelt()
    ensures PointThenRead(POINT)
  {
  }

  /** The hoister declares `x`, which is read in the line behind a number that ends in a decimal point. */
  lemma {:induction false} PointIsOverlooked()
    ensures BC.Declares(POINT, "x") && BC.Reads(POINT, NoRegex(), 3, "x")
  {
    PointSpelt();
    PointDeclares(POINT);
    PointReads(POINT, NoRegex());
  }

  // ---------------------------------------------------------------- a keyword

  const VAR_OF := "for(var of of y);"

  ghost predicate DeclarationOfOf(b: string) {
    |b| == 17 && IsForParen(b, 0) && b[4] == 'v' && b[5] == 'a' && b[6] == 'r' && b[7] == ' ' && b[8] == 'o' &&
    b[9] == 'f' && b[10] == ' ' && PlainTail(b, 0) && forall k: nat :: k < |b| && b[k] == 'v' ==> k == 4
  }

  lemma {:induction false} VarTokens(b: string)
    requires DeclarationOfOf(b)
    ensures TokensFrom(b, 4, 8) == [Token(Ident("var"), 4)] && Id.OccurrenceAt(b, 4).name == "var"
  {
    assert RunEnd(b, 7, 8) == 7 && RunEnd(b, 6, 8) == 7 && RunEnd(b, 5, 8) == 7;
    assert Id.IdentEnd(b, 7) == 7 && Id.IdentEnd(b, 6) == 7 && Id.IdentEnd(b, 5) == 7;
    assert b[4..7] == "var";
    LastBlank(b, 8);
  }

  lemma {:induction false} VarIsTarget(b: string)
    requires DeclarationOfOf(b)
    ensures 4 in ForTargets(b)
  {
    Over(b, 4, 1);
    Over(b, 5, 1);
    Over(b, 6, 1);
    Over(b, 7, 1);
    KeywordEnds(b, 8);
    FirstHead(b, 0, 8);
    VarTokens(b);
  }

  lemma {:induction false} VarSpelt()
    ensures DeclarationOfOf(VAR_OF)
  {
  }

  /** The hoister declares `var`. */
  lemma {:induction false} KeywordIsDeclared()
    ensures BC.Declares(VAR_OF, "var")
  {
    VarSpelt();
    VarIsTarget(VAR_OF);
    VarTokens(VAR_OF);
    PlainLoneTarget(VAR_OF, 4, "var");
  }

  // ---------------------------------------------------------------- the guard is met

  lemma {:induction false} SpellsFirst(text: string, k: nat, w: string)
    ensures w != "" && BL.Spells(text, k, w) ==> text[k] == w[0]
  {
    if w != "" && BL.Spells(text, k, w) { assert text[k] == text[k..k + |w|][0]; }
  }

  lemma {:induction false} TemplateIsTame(b: string, rx: nat -> bool)
    requires TemplateThenHead(b)
    ensures BL.Tame(b, rx)
  {
    forall k: nat | k < |b|
      ensures BL.InSubstitution(b, rx, k) ==> b[k] != '`' && b[k] != '\\' && !BL.Spells(b, k, "for")
      ensures !BL.InRegex(b, rx, k) && !BL.StateAt(b, rx, k).zone.Line?
    {
      TemplateZones(b, rx, k);
      SpellsFirst(b, k, "for");
    }
  }

  /** Code whose one head is `for(x of`, without dots and the bytes that comments of HTML are made of. */
  ghost predicate OneHead(code: string, q: nat) {
    BindsX(code, q) && NoEscapes(code) &&
    forall k: nat :: k < |code| ==>
      (code[k] == ' ' || '!' <= code[k] <= '~') && code[k] != '.' && code[k] != '-' && code[k] != '<' &&
      (code[k] == 'f' ==> k == q || k == q + 7)
  }

  lemma {:induction false} OneHeadAt(code: string, q: nat, i: nat)
    requires OneHead(code, q) && IsWord(code, i, "for")
    ensures i == q
  {
    SpelltByte(code, i, "for", 0);
    SpelltByte(code, i, "for", 1);
  }

  lemma {:induction false} OneHeadOpens(code: string, q: nat, i: nat, open: nat)
    requires OneHead(code, q) && OpensHead(code, i, open)
    ensures i == q && open == q + 3
  {
    OneHeadAt(code, q, i);
    HeadBehindFor(code, q);
    OpensIff(code, q, open);
  }

  lemma {:induction false} NoHtml(code: string, q: nat, k: nat)
    requires OneHead(code, q)
    ensures !BL.Spells(code, k, "<!--") && !BL.Spells(code, k, "-->")
  {
    SpellsFirst(code, k, "<!--");
    SpellsFirst(code, k, "-->");
  }

  lemma {:induction false} XEnds(code: string, q: nat, e: nat)
    requires OneHead(code, q) && LoopWordAt(code, q + 4, e)
    ensures e == q + 6
  {
    Over(code, q + 4, 1);
    Over(code, q + 5, 1);
    KeywordEnds(code, q + 6);
    LoopWordIff(code, q + 4, e);
  }

  lemma {:induction false} XIsPlain(code: string, q: nat)
    requires OneHead(code, q)
    ensures PlainBinding(code, q + 3, q + 6)
  {
    NoOf(code, q + 4);
    forall k: nat | q + 3 < k < q + 6 ensures !IsWord(code, k, "for") { ForStarts(code, k); }
    OneLetterToken(code, q + 4, q + 6);
    LastBlank(code, q + 6);
    assert TokensFrom(code, q + 4, q + 6) == [Token(Ident("x"), q + 4)];
  }

  lemma {:induction false} NoDotBack(code: string, q: nat, i: nat)
    requires OneHead(code, q) && i <= |code|
    ensures BackOver(code, i) == 0 || code[BackOver(code, i) - 1] != '.'
  {
  }

  lemma {:induction false} OneHeadIsPlain(code: string, q: nat, i: nat)
    requires OneHead(code, q)
    ensures PlainHead(code, i)
  {
    if i <= |code| { NoDotBack(code, q, i); }
    forall open: nat, e: nat | OpensHead(code, i, open) && LoopWordAt(code, open + 1, e)
      ensures PlainBinding(code, open, e)
    {
      OneHeadOpens(code, q, i, open);
      XEnds(code, q, e);
      XIsPlain(code, q);
    }
  }

  lemma {:induction false} TemplateTexts(b: string, rx: nat -> bool)
    requires TemplateThenHead(b) && OneHead(b, 7)
    ensures OneHead(BL.CodeOf(b, rx), 7) && OneHead(BL.BareCode(b, rx), 7)
  {
    forall k: nat | k < |b|
      ensures BL.CodeOf(b, rx)[k] == if k == 1 then ' ' else b[k]
      ensures BL.BareCode(b, rx)[k] == if 1 <= k <= 4 then ' ' else b[k]
    {
      TemplateCodeByte(b, rx, k);
    }
  }

  lemma {:induction false} TemplateIsGuarded(b: string, rx: nat -> bool)
    requires TemplateThenHead(b) && OneHead(b, 7)
    ensures BC.Guard(b, rx)
  {
    var code, bare := BL.CodeOf(b, rx), BL.BareCode(b, rx);
    TemplateIsTame(b, rx);
    TemplateTexts(b, rx);
    forall i: nat, open: nat, k: nat | BC.SearchedFrom(bare, i, open, k)
      ensures !BL.InRegex(b, rx, k) && !BL.InSubstitution(b, rx, k)
    {
      OneHeadOpens(bare, 7, i, open);
      TemplateZones(b, rx, k);
    }
    forall k: nat ensures !BL.Spells(code, k, "<!--") && !BL.Spells(code, k, "-->") { NoHtml(code, 7, k); }
    forall i: nat ensures PlainHead(code, i) { OneHeadIsPlain(code, 7, i); }
  }

  lemma {:induction false} SubstitutionIsOneHead()
    ensures OneHead(SUBSTITUTION, 7)
  {
  }

  /** The body with the substitution meets the guard. */
  lemma {:induction false} SubstitutionIsGuarded()
    ensures BC.Guard(SUBSTITUTION, NoRegex())
  {
    SubstitutionSpelt();
    SubstitutionIsOneHead();
    TemplateIsGuarded(SUBSTITUTION, NoRegex());
  }
}
