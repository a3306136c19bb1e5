/** For-heads of masked code (pkg/tc39/hoist.go, forBindingEnd, tokenizePattern, forBindingTargets):
    where a binding ends, its tokens, and the agreement of their offsets with the identifier scan. */
module ForHeads {
  import opened Bytes
  import Id = Identifiers
  import opened BindingGrammar
  import opened PatternWalk
  import opened Types

  // ---------------------------------------------------------------- the end of a binding

  predicate OpensBracket(c: char) {
    c == '(' || c == '[' || c == '{'
  }

  predicate ClosesBracket(c: char) {
    c == ')' || c == ']' || c == '}'
  }

  predicate KeywordAt(code: string, i: nat) {
    WordAt(code, i, "of") || WordAt(code, i, "in")
  }

  /** Bracket depth right before byte `i` of a head whose parenthesis opened at `start - 1`. */
  function Depth(code: string, start: nat, i: nat): int
    requires start <= i <= |code|
    decreases i
  {
    if i == start then 1
    else
      Depth(code, start, i - 1) +
      (if OpensBracket(code[i - 1]) then 1 else if ClosesBracket(code[i - 1]) then -1 else 0)
  }

  /** Byte `i` ends the search: a closer back to depth zero, a `;` or a loop keyword at depth one. */
  predicate Stops(code: string, start: nat, i: nat)
    requires start <= i < |code|
  {
    Depth(code, start, i) == 1 && (ClosesBracket(code[i]) || code[i] == ';' || KeywordAt(code, i))
  }

  /** `e` closes the binding: the first place the search ends is a loop keyword, there, and the
      brackets of the binding text never close more than they opened and balance at its end. */
  ghost predicate EndsBinding(code: string, start: nat, e: nat)
    requires start <= |code|
  {
    start <= e < |code| && KeywordAt(code, e) && Depth(code, start, e) == 1 &&
    forall i :: start <= i < e ==> Depth(code, start, i) >= 1 && !Stops(code, start, i)
  }

  /** The byte-by-byte search from byte `i` at bracket depth `depth`. */
  function EndFrom(code: string, i: nat, depth: nat): (r: Option<nat>)
    requires i <= |code|
    ensures r.Some? ==> i <= r.value < |code| && KeywordAt(code, r.value)
    decreases |code| - i
  {
    if i == |code| then None
    else if OpensBracket(code[i]) then EndFrom(code, i + 1, depth + 1)
    else if ClosesBracket(code[i]) then (if depth <= 1 then None else EndFrom(code, i + 1, depth - 1))
    else if code[i] == ';' && depth == 1 then None
    else if depth == 1 && KeywordAt(code, i) then Some(i)
    else EndFrom(code, i + 1, depth)
  }

  lemma {:induction false} EndFromStep(code: string, start: nat, i: nat)
    requires start <= i < |code| && Depth(code, start, i) >= 1
    ensures var d := Depth(code, start, i);
            if Stops(code, start, i) then EndFrom(code, i, d) == if KeywordAt(code, i) then Some(i) else None
            else
              Depth(code, start, i + 1) >= 1 &&
              EndFrom(code, i, d) == EndFrom(code, i + 1, Depth(code, start, i + 1))
  {
    if KeywordAt(code, i) { assert code[i] == code[i..i + 2][0]; }
  }

  lemma {:induction false} EndsHere(code: string, start: nat, i: nat, e: nat)
    requires start <= i < |code| && Depth(code, start, i) >= 1 && Stops(code, start, i)
    requires forall k :: start <= k < i ==> Depth(code, start, k) >= 1 && !Stops(code, start, k)
    ensures EndsBinding(code, start, e) <==> e == i && KeywordAt(code, i)
  {
  }

  lemma {:induction false} EndFromIff(code: string, start: nat, i: nat, e: nat)
    requires start <= i <= |code| && Depth(code, start, i) >= 1
    requires forall k :: start <= k < i ==> Depth(code, start, k) >= 1 && !Stops(code, start, k)
    ensures EndFrom(code, i, Depth(code, start, i)) == Some(e) <==> EndsBinding(code, start, e)
    decreases |code| - i
  {
    if i == |code| {
    } else {
      EndFromStep(code, start, i);
      if Stops(code, start, i) {
        EndsHere(code, start, i, e);
      } else {
        EndFromIff(code, start, i + 1, e);
      }
    }
  }

  /** The search finds `e` exactly when `e` closes the binding. */
  lemma {:induction false} BindingEndExact(code: string, start: nat, e: nat)
    requires start <= |code|
    ensures EndFrom(code, start, 1) == Some(e) <==> EndsBinding(code, start, e)
  {
    EndFromIff(code, start, start, e);
  }

  lemma {:induction false} NoKeywordInside(code: string, i: nat, j: nat, depth: nat)
    requires i < j <= |code| && forall k :: i <= k < j ==> IsIdentPart(code[k])
    ensures EndFrom(code, i + 1, depth) == EndFrom(code, j, depth)
    decreases j
  {
    if j == i + 1 {
    } else {
      NoKeywordInside(code, i, j - 1, depth);
    }
  }

  /** The source's search, which steps over whole identifiers. */
  method ForBindingEnd(code: string, start: nat) returns (r: Option<nat>)
    requires start <= |code|
    ensures r == EndFrom(code, start, 1)
  {
    var depth: nat := 1;
    var i := start;
    while i < |code|
      invariant start <= i <= |code| && depth >= 1
      invariant EndFrom(code, i, depth) == EndFrom(code, start, 1)
    {
      var c := code[i];
      if c == '(' || c == '[' || c == '{' {
        depth := depth + 1;
        i := i + 1;
      } else if c == ')' || c == ']' || c == '}' {
        depth := depth - 1;
        if depth == 0 { return None; }
        i := i + 1;
      } else if c == ';' {
        if depth == 1 { return None; }
        i := i + 1;
      } else {
        if depth == 1 {
          if WordAt(code, i, "of") && BoundBefore(code, i) { return Some(i); }
          if WordAt(code, i, "in") && BoundBefore(code, i) { return Some(i); }
        }
        if IsIdentStart(c) {
          ghost var from := i;
          i := i + 1;
          while i < |code| && IsIdentPart(code[i])
            invariant from < i <= |code| && forall k :: from <= k < i ==> IsIdentPart(code[k])
          {
            i := i + 1;
          }
          NoKeywordInside(code, from, i, depth);
        } else {
          i := i + 1;
        }
      }
    }
    return None;
  }

  predicate BoundBefore(code: string, i: nat)
    requires i <= |code|
  {
    i == 0 || !IsIdentPart(code[i - 1])
  }

  // ---------------------------------------------------------------- tokens

  function RunEnd(code: string, j: nat, end: nat): (e: nat)
    requires j <= end <= |code|
    ensures j <= e <= end && (forall k :: j <= k < e ==> IsIdentPart(code[k])) && (e < end ==> !IsIdentPart(code[e]))
    decreases end - j
  {
    if j < end && IsIdentPart(code[j]) then RunEnd(code, j + 1, end) else j
  }

  function PunctOf(c: char): Lexeme {
    match c
    case '[' => LBrack
    case ']' => RBrack
    case '{' => LBrace
    case '}' => RBrace
    case '(' => LParen
    case ')' => RParen
    case ',' => Comma
    case ':' => Colon
    case '=' => Assign
    case _ => Opaque
  }

  /** The token at byte `i`, which is not blank, and the byte behind it. */
  function TokenAt(code: string, i: nat, end: nat): (r: (Token, nat))
    requires i < end <= |code|
    ensures i < r.1 <= end
  {
    var c := code[i];
    if IsIdentStart(c) then
      var j := RunEnd(code, i + 1, end);
      (Token(Ident(code[i..j]), i), j)
    else if c == '.' && i + 2 < end && code[i + 1] == '.' && code[i + 2] == '.' then (Token(Dots, i), i + 3)
    else if c == '=' && i + 1 < end && (code[i + 1] == '=' || code[i + 1] == '>') then (Token(Opaque, i), i + 2)
    else (Token(PunctOf(c), i), i + 1)
  }

  function TokensFrom(code: string, i: nat, end: nat): seq<Token>
    requires i <= end <= |code|
    decreases end - i
  {
    if i == end then []
    else if IsBlank(code[i]) then TokensFrom(code, i + 1, end)
    else
      var t := TokenAt(code, i, end);
      [t.0] + TokensFrom(code, t.1, end)
  }

  /** The body of the lexer's loop behind its blank test. */
  method ReadToken(code: string, i: nat, end: nat) returns (tok: Token, next: nat)
    requires i < end <= |code|
    ensures (tok, next) == TokenAt(code, i, end)
  {
    var c := code[i];
    if IsIdentStart(c) {
      var j := i + 1;
      while j < end && IsIdentPart(code[j])
        invariant i < j <= end && RunEnd(code, i + 1, end) == RunEnd(code, j, end)
      {
        j := j + 1;
      }
      return Token(Ident(code[i..j]), i), j;
    }
    if c == '.' && i + 2 < end && code[i + 1] == '.' && code[i + 2] == '.' { return Token(Dots, i), i + 3; }
    if c == '=' && i + 1 < end && (code[i + 1] == '=' || code[i + 1] == '>') { return Token(Opaque, i), i + 2; }
    return Token(PunctOf(c), i), i + 1;
  }

  lemma {:induction false} OneMoreToken(toks: seq<Token>, tok: Token, rest: seq<Token>, all: seq<Token>)
    requires toks + ([tok] + rest) == all
    ensures toks + [tok] + rest == all
  {
  }

  method TokenizePattern(code: string, start: nat, end: nat) returns (toks: seq<Token>)
    requires start <= end <= |code|
    ensures toks == TokensFrom(code, start, end)
  {
    toks := [];
    var i := start;
    while i < end
      invariant start <= i <= end
      invariant toks + TokensFrom(code, i, end) == TokensFrom(code, start, end)
      decreases end - i
    {
      if IsBlank(code[i]) {
        i := i + 1;
        continue;
      }
      var tok, next := ReadToken(code, i, end);
      OneMoreToken(toks, tok, TokensFrom(code, next, end), TokensFrom(code, start, end));
      toks := toks + [tok];
      i := next;
    }
  }

  /** Token `t` is what stands from its position up to byte `next`. */
  predicate Spelt(code: string, t: Token, next: nat, end: nat) {
    t.pos < next <= end <= |code| &&
    var text := code[t.pos..next];
    match t.lexeme
    case LBrack => text == "["
    case RBrack => text == "]"
    case LBrace => text == "{"
    case RBrace => text == "}"
    case LParen => text == "("
    case RParen => text == ")"
    case Comma => text == ","
    case Colon => text == ":"
    case Dots => text == "..."
    case Assign => text == "=" && (next < end ==> code[next] != '=' && code[next] != '>')
    case Ident(name) => text == name && IsIdentStart(text[0]) && (next < end ==> !IsIdentPart(code[next])) &&
      forall k :: 0 <= k < |text| ==> IsIdentPart(text[k])
    case Opaque =>
      text == "==" || text == "=>" ||
      (|text| == 1 && !IsIdentStart(text[0]) && text[0] !in "[]{}(),:" &&
       (text == "=" ==> next < end && (code[next] == '=' || code[next] == '>')) &&
       (text == "." ==> next + 1 >= end || code[next..next + 2] != ".."))
  }

  /** The tokens are what stands between bytes `i` and `end`, but for blanks. */
  ghost predicate LexedAs(code: string, i: nat, end: nat, toks: seq<Token>)
    requires i <= end <= |code|
    decreases end - i
  {
    if i == end then toks == []
    else if IsBlank(code[i]) then LexedAs(code, i + 1, end, toks)
    else
      toks != [] && toks[0].pos == i &&
      exists next :: i < next <= end && Spelt(code, toks[0], next, end) && LexedAs(code, next, end, toks[1..])
  }

  lemma {:induction false} TokenIsSpelt(code: string, i: nat, end: nat)
    requires i < end <= |code| && !IsBlank(code[i])
    ensures Spelt(code, TokenAt(code, i, end).0, TokenAt(code, i, end).1, end)
  {
    if IsIdentStart(code[i]) {
      var j := RunEnd(code, i + 1, end);
      assert forall k :: 0 <= k < j - i ==> code[i..j][k] == code[i + k];
    } else if i + 2 < end {
      assert code[i..i + 3] == [code[i], code[i + 1], code[i + 2]];
      assert code[i..i + 2] == [code[i], code[i + 1]];
      assert code[i + 1..i + 3] == [code[i + 1], code[i + 2]];
    } else if i + 1 < end {
      assert code[i..i + 2] == [code[i], code[i + 1]];
    }
  }

  /** The lexer's tokens are the punctuators, names and other bytes of the region, in order and without gaps. */
  lemma {:induction false} TokensAreLexed(code: string, i: nat, end: nat)
    requires i <= end <= |code|
    ensures LexedAs(code, i, end, TokensFrom(code, i, end))
    decreases end - i
  {
    if i == end {
    } else if IsBlank(code[i]) {
      TokensAreLexed(code, i + 1, end);
    } else {
      var t := TokenAt(code, i, end);
      TokenIsSpelt(code, i, end);
      TokensAreLexed(code, t.1, end);
      assert TokensFrom(code, i, end)[1..] == TokensFrom(code, t.1, end);
    }
  }

  /** The token positions of a region increase. */
  lemma {:induction false} TokensIncrease(code: string, i: nat, end: nat, a: nat, b: nat)
    requires i <= end <= |code|
    requires a <= b < |TokensFrom(code, i, end)|
    ensures i <= TokensFrom(code, i, end)[a].pos < end
    ensures a < b ==> TokensFrom(code, i, end)[a].pos < TokensFrom(code, i, end)[b].pos
    decreases end - i
  {
    if IsBlank(code[i]) {
      TokensIncrease(code, i + 1, end, a, b);
    } else {
      var t := TokenAt(code, i, end);
      if a > 0 {
        TokensIncrease(code, t.1, end, a - 1, b - 1);
      } else if b > 0 {
        TokensIncrease(code, t.1, end, b - 1, b - 1);
      }
    }
  }

  /** No identifier straddles byte `i`. */
  predicate Boundary(code: string, i: nat)
    requires i <= |code|
  {
    i == |code| || !IsIdentPart(code[i]) || !Id.InsideIdent(code, i)
  }

  /** Lexing a region that starts and ends between identifiers finds the very identifiers that lexing
      the whole code from byte zero finds there, under the same names. */
  lemma {:induction false} IdentTokensExact(code: string, i: nat, end: nat, name: string, p: nat)
    requires i <= end <= |code| && Boundary(code, i)
    requires 0 < end < |code| ==> !IsIdentPart(code[end - 1])
    ensures Token(Ident(name), p) in TokensFrom(code, i, end) <==>
            i <= p < end && Id.IdentStartsAt(code, p) && name == Id.OccurrenceAt(code, p).name
    decreases end - i
  {
    if i == end {
    } else {
      if IsBlank(code[i]) {
        IdentTokensExact(code, i + 1, end, name, p);
      } else {
        var t := TokenAt(code, i, end);
        if IsIdentStart(code[i]) {
          WholeRun(code, i, end);
          InsideRun(code, i, t.1);
          if i < p < t.1 { InsideRun(code, i, p); }
        }
        IdentTokensExact(code, t.1, end, name, p);
      }
    }
  }

  lemma {:induction false} WholeRun(code: string, i: nat, end: nat)
    requires i < end <= |code| && IsIdentStart(code[i])
    requires end < |code| ==> !IsIdentPart(code[end - 1])
    ensures RunEnd(code, i + 1, end) == Id.IdentEnd(code, i)
  {
  }

  lemma {:induction false} InsideRun(code: string, i: nat, j: nat)
    requires i < j <= |code| && IsIdentStart(code[i]) && forall k :: i <= k < j ==> IsIdentPart(code[k])
    ensures Id.InsideIdent(code, j)
    decreases j
  {
    if j == i + 1 {
    } else {
      InsideRun(code, i, j - 1);
    }
  }

  /** Byte `e` is right behind a token with lexeme `l`, one that may precede a target. */
  predicate Behind(code: string, e: nat, l: Lexeme) {
    0 < e <= |code| &&
    match l
    case LBrack => code[e - 1] == '['
    case LBrace => code[e - 1] == '{'
    case Comma => code[e - 1] == ','
    case Colon => code[e - 1] == ':'
    case Dots => e > 1 && code[e - 1] == '.' && code[e - 2] == '.'
    case _ => false
  }

  ghost predicate BlankBetween(code: string, e: nat, p: nat) {
    e <= p <= |code| && forall k :: e <= k < p ==> IsBlank(code[k])
  }

  /** Between two tokens there are only blanks, and so before the first. */
  lemma {:induction false} TokenGap(code: string, i: nat, end: nat, k: nat)
    requires i <= end <= |code| && k < |TokensFrom(code, i, end)|
    ensures var toks := TokensFrom(code, i, end);
            if k == 0 then BlankBetween(code, i, toks[0].pos)
            else PrecedesTarget(toks[k - 1].lexeme) ==>
              exists e :: Behind(code, e, toks[k - 1].lexeme) && BlankBetween(code, e, toks[k].pos)
    decreases end - i
  {
    if IsBlank(code[i]) {
      TokenGap(code, i + 1, end, k);
    } else if k > 0 {
      var t := TokenAt(code, i, end);
      var rest := TokensFrom(code, t.1, end);
      TokenGap(code, t.1, end, k - 1);
      assert TokensFrom(code, i, end)[k] == rest[k - 1];
      if k == 1 {
        if PrecedesTarget(t.0.lexeme) { assert Behind(code, t.1, t.0.lexeme); }
      } else {
        assert TokensFrom(code, i, end)[k - 1] == rest[k - 2];
      }
    }
  }

  lemma {:induction false} BackTo(code: string, e: nat, p: nat)
    requires BlankBetween(code, e, p) && e > 0 && !IsBlank(code[e - 1])
    ensures Id.BackOverBlanks(code, p) == e
    decreases p
  {
    if p == e {
    } else {
      BackTo(code, e, p - 1);
    }
  }

  /** No target is the property of a member access. */
  lemma {:induction false} TargetIsNoMember(code: string, start: nat, end: nat, p: nat)
    requires 0 < start <= end <= |code| && code[start - 1] == '('
    requires p in BindingTargets(TokensFrom(code, start, end))
    ensures p <= |code| && !Id.IsMember(code, p)
    ensures exists name :: Token(Ident(name), p) in TokensFrom(code, start, end)
  {
    var toks := TokensFrom(code, start, end);
    if toks[0].lexeme.Ident? {
      TokenGap(code, start, end, 0);
      TokensIncrease(code, start, end, 0, 0);
      BackTo(code, start, p);
      assert toks[0] == Token(Ident(toks[0].lexeme.name), p);
    } else {
      TargetsFollowPunctuation(toks, 0, TOP, p);
      var k: nat :| TargetAt(toks, p, k);
      TokenGap(code, start, end, k);
      var e :| Behind(code, e, toks[k - 1].lexeme) && BlankBetween(code, e, p);
      BackTo(code, e, p);
      assert toks[k] == Token(Ident(toks[k].lexeme.name), p);
    }
  }

  lemma {:induction false} NoDigitBefore(code: string, e: nat, p: nat)
    requires BlankBetween(code, e, p) && 0 < e && !IsIdentPart(code[e - 1])
    ensures p > 0 && !IsIdentPart(code[p - 1])
  {
    if e < p { assert IsBlank(code[p - 1]); }
  }

  /** No target stands right behind a letter or a digit. */
  lemma {:induction false} TargetStandsAlone(code: string, start: nat, end: nat, p: nat)
    requires 0 < start <= end <= |code| && code[start - 1] == '('
    requires p in BindingTargets(TokensFrom(code, start, end))
    ensures 0 < p <= |code| && !IsIdentPart(code[p - 1])
  {
    var toks := TokensFrom(code, start, end);
    if toks[0].lexeme.Ident? {
      TokenGap(code, start, end, 0);
      NoDigitBefore(code, start, p);
    } else {
      TargetsFollowPunctuation(toks, 0, TOP, p);
      var k: nat :| TargetAt(toks, p, k);
      TokenGap(code, start, end, k);
      var e :| Behind(code, e, toks[k - 1].lexeme) && BlankBetween(code, e, p);
      NoDigitBefore(code, e, p);
    }
  }

  // ---------------------------------------------------------------- heads

  /** A binding region: the bytes between the parenthesis of a head and its loop keyword. */
  datatype Region = Region(start: nat, end: nat)

  /** Where the parenthesis of a `for` at byte `i` should stand: behind blanks and an optional `await`. */
  function ParenSpot(code: string, i: nat): (k: nat)
    requires WordAt(code, i, "for")
    ensures i + 3 <= k <= |code|
  {
    var j := AfterBlanks(code, i + 3);
    if WordAt(code, j, "await") then AfterBlanks(code, j + 5) else j
  }

  function HeadAt(code: string, i: nat): (r: Option<Region>)
    ensures r.Some? ==> i < r.value.start <= r.value.end < |code| && code[r.value.start - 1] == '('
    ensures r.Some? ==> EndFrom(code, r.value.start, 1) == Some(r.value.end)
  {
    if !WordAt(code, i, "for") then None
    else
      var open := ParenSpot(code, i);
      if open == |code| || code[open] != '(' then None
      else
        match EndFrom(code, open + 1, 1)
        case None => None
        case Some(e) => Some(Region(open + 1, e))
  }

  /** The binding regions from byte `i` on; the search goes on behind each region. */
  function HeadsFrom(code: string, i: nat): seq<Region>
    requires i <= |code|
    decreases |code| - i
  {
    if i == |code| then []
    else
      match HeadAt(code, i)
      case None => HeadsFrom(code, i + 1)
      case Some(r) => [r] + HeadsFrom(code, r.end)
  }

  function RegionTargets(code: string, r: Region): set<nat> {
    if r.start <= r.end <= |code| then BindingTargets(TokensFrom(code, r.start, r.end)) else {}
  }

  function TargetsIn(code: string, regions: seq<Region>): set<nat> {
    if regions == [] then {} else RegionTargets(code, regions[0]) + TargetsIn(code, regions[1..])
  }

  /** The offsets of all targets in the for-heads of `code`. */
  function ForTargets(code: string): set<nat> {
    TargetsIn(code, HeadsFrom(code, 0))
  }

  lemma {:induction false} WordStarts(code: string, i: nat, w: string)
    requires w != ""
    ensures WordAt(code, i, w) ==> code[i] == w[0]
  {
    if WordAt(code, i, w) { assert code[i] == code[i..i + |w|][0]; }
  }

  lemma {:induction false} NotAKeyword(code: string, i: nat)
    requires i < |code| && code[i] != 'o' && code[i] != 'i'
    ensures !KeywordAt(code, i)
  {
    WordStarts(code, i, "of");
    WordStarts(code, i, "in");
  }

  /** A stretch without the letter f holds no `for`. */
  lemma {:induction false} NoHeads(code: string, i: nat, j: nat)
    requires i <= j <= |code| && forall k :: i <= k < j ==> code[k] != 'f'
    ensures HeadsFrom(code, i) == HeadsFrom(code, j)
    decreases j - i
  {
    if i == j {
    } else {
      WordStarts(code, i, "for");
      NoHeads(code, i + 1, j);
    }
  }

  /** Between a `for` and its parenthesis there is no `f`. */
  lemma {:induction false} NoFInHead(code: string, i: nat)
    requires WordAt(code, i, "for")
    ensures forall k :: i < k < ParenSpot(code, i) ==> code[k] != 'f'
  {
    assert code[i + 1] == code[i..i + 3][1] && code[i + 2] == code[i..i + 3][2];
    var j := AfterBlanks(code, i + 3);
    if WordAt(code, j, "await") {
      forall k | j <= k < j + 5 ensures code[k] != 'f' {
        assert code[k] == code[j..j + 5][k - j];
      }
    }
  }

  /** Going on at `next` from byte `i` misses no head: either the one at `i` is `region` and `next` its
      end, or there is none before `next`. */
  ghost predicate Steps(code: string, i: nat, next: nat, region: Option<Region>) {
    i < next <= |code| && region == HeadAt(code, i) &&
    match region
    case Some(r) => next == r.end
    case None => HeadsFrom(code, i) == HeadsFrom(code, next)
  }

  lemma {:induction false} SkipHeadless(code: string, i: nat, j: nat)
    requires i < j <= |code| && HeadAt(code, i) == None && forall k :: i < k < j ==> code[k] != 'f'
    ensures Steps(code, i, j, None)
  {
    NoHeads(code, i + 1, j);
  }

  /** The byte where the parenthesis of a head at `i` should stand. */
  method SkipToParen(code: string, i: nat) returns (j: nat)
    requires WordAt(code, i, "for")
    ensures j == ParenSpot(code, i)
  {
    j := SkipSpace(code, i + 3);
    if WordAt(code, j, "await") {
      j := SkipSpace(code, j + 5);
    }
  }

  lemma {:induction false} NotAFor(code: string, i: nat)
    requires i < |code| && !WordAt(code, i, "for")
    ensures Steps(code, i, i + 1, None)
  {
  }

  lemma {:induction false} NoParen(code: string, i: nat)
    requires WordAt(code, i, "for")
    requires var open := ParenSpot(code, i); open == |code| || code[open] != '('
    ensures Steps(code, i, i + 3, None)
  {
    NoFInHead(code, i);
    SkipHeadless(code, i, i + 3);
  }

  lemma {:induction false} HeadAtParen(code: string, i: nat, open: nat)
    requires WordAt(code, i, "for") && open == ParenSpot(code, i) && open < |code| && code[open] == '('
    ensures match EndFrom(code, open + 1, 1)
            case None => HeadAt(code, i) == None
            case Some(e) => HeadAt(code, i) == Some(Region(open + 1, e)) && i < e <= |code|
  {
  }

  lemma {:induction false} NoFThrough(code: string, i: nat, open: nat)
    requires WordAt(code, i, "for") && open == ParenSpot(code, i) && open < |code| && code[open] == '('
    ensures i < open && forall k :: i < k < open + 1 ==> code[k] != 'f'
  {
    NoFInHead(code, i);
  }

  lemma {:induction false} Found(code: string, i: nat, r: Region)
    requires HeadAt(code, i) == Some(r)
    ensures Steps(code, i, r.end, Some(r))
  {
  }

  /** The part of the loop that looks for a head at `i`: where to go on, and the region if one is there. */
  method ScanHead(code: string, i: nat) returns (next: nat, region: Option<Region>)
    requires i < |code|
    ensures Steps(code, i, next, region)
  {
    if !WordAt(code, i, "for") {
      NotAFor(code, i);
      return i + 1, None;
    }
    var j := SkipToParen(code, i);
    if j >= |code| || code[j] != '(' {
      NoParen(code, i);
      return i + 3, None;
    }
    var bindStart := j + 1;
    var bindEnd := ForBindingEnd(code, bindStart);
    HeadAtParen(code, i, j);
    if bindEnd.None? {
      NoFThrough(code, i, j);
      SkipHeadless(code, i, j + 1);
      return j + 1, None;
    }
    var r := Region(bindStart, bindEnd.value);
    Found(code, i, r);
    return bindEnd.value, Some(r);
  }

  /** The source's scan over all heads, with its jumps. */
  method ForBindingTargets(code: string) returns (targets: set<nat>)
    ensures targets == ForTargets(code)
  {
    targets := {};
    var i := 0;
    while i < |code|
      invariant 0 <= i <= |code|
      invariant targets + TargetsIn(code, HeadsFrom(code, i)) == ForTargets(code)
      decreases |code| - i
    {
      var next, region := ScanHead(code, i);
      if region.Some? {
        var r := region.value;
        assert ([r] + HeadsFrom(code, r.end))[1..] == HeadsFrom(code, r.end);
        var toks := TokenizePattern(code, r.start, r.end);
        targets := CollectPatternTargets(toks, targets);
      }
      i := next;
    }
  }

  /** The region is inside the code, behind a parenthesis, and closed by a loop keyword at its own depth. */
  ghost predicate GoodRegion(code: string, r: Region) {
    0 < r.start <= r.end < |code| && code[r.start - 1] == '(' && EndsBinding(code, r.start, r.end)
  }

  /** Every region is good and lies wholly before the next, the first behind byte `i`. */
  ghost predicate Disjoint(code: string, i: nat, regions: seq<Region>)
    decreases |regions|
  {
    regions != [] ==>
      i < regions[0].start && GoodRegion(code, regions[0]) && Disjoint(code, regions[0].end, regions[1..])
  }

  lemma {:induction false} HeadIsGood(code: string, i: nat, r: Region)
    requires HeadAt(code, i) == Some(r)
    ensures i < r.start && GoodRegion(code, r)
  {
    BindingEndExact(code, r.start, r.end);
  }

  /** The regions the scan walks are disjoint and increasing, and there are finitely many. */
  lemma {:induction false} HeadsAreDisjoint(code: string, i: nat)
    requires i <= |code|
    ensures Disjoint(code, i, HeadsFrom(code, i))
    ensures |HeadsFrom(code, i)| <= |code| - i
    decreases |code| - i
  {
    if i == |code| {
    } else {
      match HeadAt(code, i) {
        case None =>
          HeadsAreDisjoint(code, i + 1);
          DisjointEarlier(code, i, HeadsFrom(code, i + 1));
        case Some(r) =>
          HeadIsGood(code, i, r);
          HeadsAreDisjoint(code, r.end);
          DisjointMore(code, i, r, HeadsFrom(code, r.end));
      }
    }
  }

  lemma {:induction false} DisjointEarlier(code: string, i: nat, regions: seq<Region>)
    requires Disjoint(code, i + 1, regions)
    ensures Disjoint(code, i, regions)
  {
  }

  lemma {:induction false} DisjointMore(code: string, i: nat, r: Region, rest: seq<Region>)
    requires i < r.start && GoodRegion(code, r) && Disjoint(code, r.end, rest)
    ensures Disjoint(code, i, [r] + rest)
  {
    assert ([r] + rest)[1..] == rest;
  }

  lemma {:induction false} DisjointAt(code: string, i: nat, regions: seq<Region>, k: nat)
    requires Disjoint(code, i, regions) && k < |regions|
    ensures GoodRegion(code, regions[k]) && i < regions[k].start
    ensures k + 1 < |regions| ==> regions[k].end < regions[k + 1].start
    decreases k
  {
    if k == 0 {
    } else {
      DisjointAt(code, regions[0].end, regions[1..], k - 1);
    }
  }

  lemma {:induction false} TargetsInRegion(code: string, regions: seq<Region>, p: nat)
    ensures p in TargetsIn(code, regions) <==> exists k :: 0 <= k < |regions| && p in RegionTargets(code, regions[k])
  {
    if regions == [] {
    } else {
      TargetsInRegion(code, regions[1..], p);
      if k :| 0 <= k < |regions[1..]| && p in RegionTargets(code, regions[1..][k]) {
        assert p in RegionTargets(code, regions[k + 1]);
      }
      if k :| 0 < k < |regions| && p in RegionTargets(code, regions[k]) {
        assert p in RegionTargets(code, regions[1..][k - 1]);
      }
    }
  }

  lemma {:induction false} RegionAgrees(code: string, r: Region, p: nat)
    requires GoodRegion(code, r) && p in RegionTargets(code, r)
    ensures Id.Occurs(code, p) && r.start <= p < r.end
    ensures Token(Ident(Id.OccurrenceAt(code, p).name), p) in TokensFrom(code, r.start, r.end)
  {
    TargetIsNoMember(code, r.start, r.end, p);
    var name :| Token(Ident(name), p) in TokensFrom(code, r.start, r.end);
    IdentTokensExact(code, r.start, r.end, name, p);
  }

  /** Every target offset is an identifier occurrence of the global scan, which starts at byte zero,
      under the name the pattern's own lexer gave it, and not suppressed as a member property. */
  lemma {:induction false} OffsetsAgree(code: string, p: nat)
    requires p in ForTargets(code)
    ensures p < |code| && Id.OccurrenceAt(code, p) in Id.OccurrencesFrom(code, 0)
    ensures exists r :: r in HeadsFrom(code, 0) && GoodRegion(code, r) && r.start <= p < r.end &&
              Token(Ident(Id.OccurrenceAt(code, p).name), p) in TokensFrom(code, r.start, r.end)
  {
    var regions := HeadsFrom(code, 0);
    TargetsInRegion(code, regions, p);
    var k: nat :| k < |regions| && p in RegionTargets(code, regions[k]);
    HeadsAreDisjoint(code, 0);
    DisjointAt(code, 0, regions, k);
    RegionAgrees(code, regions[k], p);
    assert regions[k] in regions;
    Id.OccurrencesExact(code, 0, Id.OccurrenceAt(code, p));
  }
}
