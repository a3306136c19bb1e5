/** The explicit-stack walk over a for-head binding (pkg/tc39/hoist.go, collectPatternTargets and
    skipDefault), proved against the recursive-descent parser of the grammar. */
module PatternWalk {
  import opened BindingGrammar

  method SkipDefault(toks: seq<Token>, start: nat) returns (j: nat)
    requires start <= |toks|
    ensures j == DefaultEnd(toks, start, 0)
  {
    var depth: nat := 0;
    j := start;
    while j < |toks|
      invariant start <= j <= |toks|
      invariant DefaultEnd(toks, start, 0) == DefaultEnd(toks, j, depth)
    {
      match toks[j].lexeme {
        case LParen | LBrack | LBrace => depth := depth + 1;
        case RParen | RBrack | RBrace =>
          if depth == 0 { return; }
          depth := depth - 1;
        case Comma =>
          if depth == 0 { return; }
        case _ =>
      }
      j := j + 1;
    }
  }

  // ---------------------------------------------------------------- the explicit-stack walk

  /** The outcome of a walk: the offsets of an accepted binding, or nothing. */
  datatype Outcome = Fail | Found(offsets: seq<nat>) {
    function Behind(found: seq<nat>): Outcome {
      if Fail? then Fail else Found(found + offsets)
    }
  }

  function OutcomeOf(r: Parse): Outcome {
    if r.Reject? then Fail else Found(Targets(r.items))
  }

  /** The innermost frame went away: its parent's element is complete. */
  function Popped(stack: seq<Frame>): seq<Frame>
    requires stack != []
  {
    var below := stack[..|stack| - 1];
    if below == [] then [] else below[|below| - 1 := Completed(below[|below| - 1])]
  }

  function Innermost(stack: seq<Frame>): Frame {
    if stack == [] then TOP else stack[|stack| - 1]
  }

  /** What recursive descent makes of the rest of the tokens with the frames of `stack` still open:
      finish the innermost frame, then go on in its parent. */
  function Unwind(toks: seq<Token>, i: nat, stack: seq<Frame>): Outcome
    requires i <= |toks|
    decreases |stack|
  {
    var r := ParseItems(toks, i, Innermost(stack));
    if stack == [] || r.Reject? then OutcomeOf(r)
    else Unwind(toks, r.next, Popped(stack)).Behind(Targets(r.items))
  }

  function SetTop(stack: seq<Frame>, f: Frame): seq<Frame>
    requires stack == [] ==> f == TOP
  {
    if stack == [] then [] else stack[|stack| - 1 := f]
  }

  ghost predicate ProperStack(stack: seq<Frame>) {
    forall k :: 0 <= k < |stack| ==> Proper(stack[k]) && !stack[k].kind.Top?
  }

  lemma {:induction false} UnwindTake(toks: seq<Token>, i: nat, stack: seq<Frame>)
    requires i < |toks| && ProperStack(stack) && Next(toks, i, Innermost(stack)).Take?
    ensures var move := Next(toks, i, Innermost(stack));
            (stack == [] ==> move.g == TOP) &&
            Unwind(toks, i, stack) == Unwind(toks, move.m, SetTop(stack, move.g)).Behind(TargetsOf(move.item))
  {
    var move := Next(toks, i, Innermost(stack));
    var after := SetTop(stack, move.g);
    var r := ParseItems(toks, move.m, move.g);
    assert ParseItems(toks, i, Innermost(stack)) == r.Prepend(move.item);
    if stack != [] && r.Accept? {
      assert after[..|after| - 1] == stack[..|stack| - 1];
      assert Popped(after) == Popped(stack);
      BehindTwice(Unwind(toks, r.next, Popped(stack)), TargetsOf(move.item), Targets(r.items));
    }
  }

  lemma {:induction false} UnwindOpen(toks: seq<Token>, i: nat, stack: seq<Frame>)
    requires i < |toks| && ProperStack(stack) && Next(toks, i, Innermost(stack)).Open?
    ensures Unwind(toks, i, stack) == Unwind(toks, i + 1, stack + [Fresh(Next(toks, i, Innermost(stack)).kind)])
  {
    var f := Innermost(stack);
    var g := Fresh(Next(toks, i, f).kind);
    var inner := ParseItems(toks, i + 1, g);
    var pushed := stack + [g];
    ParseOpen(toks, i, f);
    assert pushed[..|stack|] == stack;
    var back := Popped(pushed);
    assert back == SetTop(stack, Completed(f));
    if inner.Accept? {
      var r := ParseItems(toks, inner.next, Completed(f));
      assert Unwind(toks, i + 1, pushed) == Unwind(toks, inner.next, back).Behind(Targets(inner.items));
      UnwindNested(toks, i, stack, inner, r);
    }
  }

  lemma {:induction false} UnwindVia(toks: seq<Token>, i: nat, stack: seq<Frame>, r: Parse)
    requires i <= |toks| && r == ParseItems(toks, i, Innermost(stack))
    ensures Unwind(toks, i, stack) ==
            if r.Reject? then Fail
            else if stack == [] then Found(Targets(r.items))
            else Unwind(toks, r.next, Popped(stack)).Behind(Targets(r.items))
  {
  }

  lemma {:induction false} UnwindNested(toks: seq<Token>, i: nat, stack: seq<Frame>, inner: Parse, r: Parse)
    requires i < |toks| && inner.Accept? && i < inner.next <= |toks|
    requires ParseItems(toks, i, Innermost(stack)) == r.Prepend(Nested(toks[i], inner.items, toks[inner.next - 1]))
    requires r == ParseItems(toks, inner.next, Completed(Innermost(stack)))
    ensures Unwind(toks, i, stack) ==
            Unwind(toks, inner.next, SetTop(stack, Completed(Innermost(stack)))).Behind(Targets(inner.items))
  {
    var back := SetTop(stack, Completed(Innermost(stack)));
    var item := Nested(toks[i], inner.items, toks[inner.next - 1]);
    UnwindVia(toks, i, stack, r.Prepend(item));
    UnwindVia(toks, inner.next, back, r);
    if stack != [] && r.Accept? {
      assert back[..|back| - 1] == stack[..|stack| - 1];
      assert Popped(back) == Popped(stack);
      BehindTwice(Unwind(toks, r.next, Popped(stack)), Targets(inner.items), Targets(r.items));
    }
  }

  lemma {:induction false} BehindTwice(o: Outcome, a: seq<nat>, b: seq<nat>)
    ensures o.Behind(b).Behind(a) == o.Behind(a + b)
  {
    if o.Found? { assert a + (b + o.offsets) == (a + b) + o.offsets; }
  }

  lemma {:induction false} UnwindClose(toks: seq<Token>, i: nat, stack: seq<Frame>)
    requires i < |toks| && ProperStack(stack) && Next(toks, i, Innermost(stack)).Close?
    ensures stack != [] && Unwind(toks, i, stack) == Unwind(toks, i + 1, Popped(stack))
  {
    assert forall o: seq<nat> :: [] + o == o;
  }

  /** The offsets a binding commits. A bare binding is a single identifier; a pattern must start with
      a bracket and parse as a whole; anything else commits nothing. */
  function BindingTargets(toks: seq<Token>): set<nat> {
    if toks == [] then {}
    else if toks[0].lexeme.Ident? then (if |toks| == 1 then {toks[0].pos} else {})
    else if !toks[0].lexeme.LBrack? && !toks[0].lexeme.LBrace? then {}
    else
      var r := ParseItems(toks, 0, TOP);
      if r.Reject? then {} else set p | p in Targets(r.items)
  }

  /** One turn of the walk's loop: what the switch does with the token at `start`. */
  method WalkToken(toks: seq<Token>, start: nat, before: seq<Frame>, had: seq<nat>)
    returns (ok: bool, i: nat, stack: seq<Frame>, found: seq<nat>)
    requires start < |toks| && ProperStack(before)
    ensures var move := Next(toks, start, Innermost(before));
            ok == !move.Stuck? &&
            match move
            case Stuck => true
            case Close => before != [] && i == start + 1 && stack == Popped(before) && found == had
            case Open(kind) => i == start + 1 && stack == before + [Fresh(kind)] && found == had
            case Take(item, m, g) =>
              (before == [] ==> g == TOP) && i == m && stack == SetTop(before, g) && found == had + TargetsOf(item)
  {
    ok, i, stack, found := true, start, before, had;
    var t := toks[i];
    var n := |stack|;
    match t.lexeme {
      case LBrack =>
        if n > 0 && (stack[n - 1].expectSep || (stack[n - 1].kind.Object? && stack[n - 1].atPropStart)) {
          ok := false; return;
        }
        stack := stack + [Frame(Array, false, false)];
        i := i + 1;
      case LBrace =>
        if n > 0 && (stack[n - 1].expectSep || (stack[n - 1].kind.Object? && stack[n - 1].atPropStart)) {
          ok := false; return;
        }
        stack := stack + [Frame(Object, true, false)];
        i := i + 1;
      case RBrack =>
        if n == 0 || !stack[n - 1].kind.Array? { ok := false; return; }
        stack := stack[..n - 1];
        if n > 1 { stack := stack[n - 2 := stack[n - 2].(expectSep := true)]; }
        i := i + 1;
      case RBrace =>
        if n == 0 || !stack[n - 1].kind.Object? { ok := false; return; }
        stack := stack[..n - 1];
        if n > 1 { stack := stack[n - 2 := stack[n - 2].(expectSep := true)]; }
        i := i + 1;
      case Comma =>
        if n > 0 {
          stack := stack[n - 1 := stack[n - 1].(expectSep := false)];
          if stack[n - 1].kind.Object? { stack := stack[n - 1 := stack[n - 1].(atPropStart := true)]; }
        }
        i := i + 1;
      case Dots =>
        if n > 0 && stack[n - 1].expectSep { ok := false; return; }
        i := i + 1;
      case Assign =>
        if n == 0 || !stack[n - 1].expectSep { ok := false; return; }
        i := SkipDefault(toks, i + 1);
      case Ident(_) =>
        if n == 0 || stack[n - 1].expectSep { ok := false; return; }
        if stack[n - 1].kind.Object? && stack[n - 1].atPropStart && i + 1 < |toks| && toks[i + 1].lexeme.Colon? {
          stack := stack[n - 1 := stack[n - 1].(atPropStart := false)];
          i := i + 2;
        } else {
          found := found + [t.pos];
          stack := stack[n - 1 := stack[n - 1].(expectSep := true)];
          if stack[n - 1].kind.Object? { stack := stack[n - 1 := stack[n - 1].(atPropStart := false)]; }
          i := i + 1;
        }
      case _ => ok := false;
    }
  }

  /** The walk itself: one loop over the tokens with an explicit stack of frames, committing only
      after the last token and only with every frame closed. */
  method CollectPatternTargets(toks: seq<Token>, out: set<nat>) returns (targets: set<nat>)
    ensures targets == out + BindingTargets(toks)
  {
    targets := out;
    if |toks| == 0 { return; }
    if toks[0].lexeme.Ident? {
      if |toks| == 1 { targets := targets + {toks[0].pos}; }
      return;
    }
    if !toks[0].lexeme.LBrack? && !toks[0].lexeme.LBrace? { return; }
    var found: seq<nat> := [];
    var stack: seq<Frame> := [];
    var i: nat := 0;
    ghost var whole := Unwind(toks, 0, []);
    assert whole == OutcomeOf(ParseItems(toks, 0, TOP));
    while i < |toks|
      invariant i <= |toks| && ProperStack(stack)
      invariant whole == Unwind(toks, i, stack).Behind(found)
    {
      UnwindStep(toks, i, stack, found);
      var ok, i', stack', found' := WalkToken(toks, i, stack, found);
      if !ok { return; }
      i, stack, found := i', stack', found';
    }
    if |stack| != 0 { return; }
    targets := targets + set p | p in found;
  }

  ghost predicate Steps(toks: seq<Token>, i: nat, stack: seq<Frame>, found: seq<nat>, j: nat, stack': seq<Frame>,
                        found': seq<nat>)
    requires i <= |toks| && j <= |toks|
  {
    ProperStack(stack') && Unwind(toks, i, stack).Behind(found) == Unwind(toks, j, stack').Behind(found')
  }

  lemma {:induction false} UnwindStep(toks: seq<Token>, i: nat, stack: seq<Frame>, found: seq<nat>)
    requires i < |toks| && ProperStack(stack)
    ensures match Next(toks, i, Innermost(stack))
            case Stuck => Unwind(toks, i, stack).Fail?
            case Close => stack != [] && Steps(toks, i, stack, found, i + 1, Popped(stack), found)
            case Open(kind) => Steps(toks, i, stack, found, i + 1, stack + [Fresh(kind)], found)
            case Take(item, m, g) =>
              (stack == [] ==> g == TOP) &&
              Steps(toks, i, stack, found, m, SetTop(stack, g), found + TargetsOf(item))
  {
    match Next(toks, i, Innermost(stack)) {
      case Stuck =>
      case Close => UnwindClose(toks, i, stack);
      case Open(kind) => UnwindOpen(toks, i, stack);
      case Take(item, m, g) =>
        UnwindTake(toks, i, stack);
        BehindTwice(Unwind(toks, m, SetTop(stack, g)), found, TargetsOf(item));
        MoveProper(toks, i, Innermost(stack));
    }
  }

  lemma {:induction false} MoveProper(toks: seq<Token>, i: nat, f: Frame)
    requires i < |toks| && Proper(f) && Next(toks, i, f).Take?
    ensures Proper(Next(toks, i, f).g)
  {
  }

  // ---------------------------------------------------------------- what a commit means

  /** A binding that starts with a bracket commits exactly the leaves of its syntax forest, and
      nothing when it has none. */
  lemma {:induction false} CommitsTheForest(toks: seq<Token>)
    requires toks != [] && (toks[0].lexeme.LBrack? || toks[0].lexeme.LBrace?)
    ensures forall items :: WellFormed(items, TOP) && Yield(items, []) == toks ==>
              BindingTargets(toks) == set p | p in Targets(items)
    ensures BindingTargets(toks) != {} ==>
              exists items :: WellFormed(items, TOP) && Yield(items, []) == toks
  {
    forall items | WellFormed(items, TOP) && Yield(items, []) == toks
      ensures BindingTargets(toks) == set p | p in Targets(items)
    {
      AcceptsExactlyTheGrammar(toks, items);
    }
    var r := ParseItems(toks, 0, TOP);
    if r.Accept? {
      AcceptsExactlyTheGrammar(toks, r.items);
    }
  }

  /** With token positions increasing, no committed offset lies inside a default expression. */
  lemma {:induction false} NothingFromDefaults(toks: seq<Token>, k: nat)
    requires ParseItems(toks, 0, TOP).Accept? && k < |toks|
    requires forall a, b :: 0 <= a < b < |toks| ==> toks[a].pos < toks[b].pos
    requires k < |Roles(ParseItems(toks, 0, TOP).items, [])| && Roles(ParseItems(toks, 0, TOP).items, [])[k].InDefault?
    ensures toks[k].pos !in BindingTargets(toks)
  {
    var r := ParseItems(toks, 0, TOP);
    if toks[0].lexeme.LBrack? || toks[0].lexeme.LBrace? {
      AcceptedShape(toks);
      BoundIsRole(toks, Roles(r.items, []), toks[k].pos);
    }
  }

  /** A member access on a pattern, `[x][y]`, is not given up: with the stack empty a bracket opens
      again, so both names become targets. */
  lemma {:induction false} SecondPatternAccepted(x: string, y: string, at: nat)
    ensures BindingTargets(TwoPatterns(x, y, at)) == {at + 1, at + 4}
  {
    var toks := TwoPatterns(x, y, at);
    OnePattern(toks[3], toks[4], toks[5], Nil);
    var second := Cons(Nested(toks[3], Cons(Target(toks[4]), Nil), toks[5]), Nil);
    OnePattern(toks[0], toks[1], toks[2], second);
    CommitsTheForest(toks);
  }

  function TwoPatterns(x: string, y: string, at: nat): seq<Token> {
    [Token(LBrack, at), Token(Ident(x), at + 1), Token(RBrack, at + 2),
     Token(LBrack, at + 3), Token(Ident(y), at + 4), Token(RBrack, at + 5)]
  }

  lemma {:induction false} OnePattern(o: Token, t: Token, c: Token, rest: Items)
    requires o.lexeme.LBrack? && t.lexeme.Ident? && c.lexeme.RBrack?
    ensures var items := Cons(Nested(o, Cons(Target(t), Nil), c), rest);
            (WellFormed(items, TOP) <==> WellFormed(rest, TOP)) &&
            Targets(items) == [t.pos] + Targets(rest) &&
            Yield(items, []) == [o, t, c] + Yield(rest, [])
  {
    var leaf := Cons(Target(t), Nil);
    assert WellFormed(Nil, After(leaf.head, Fresh(Array)));
    assert WellFormed(leaf, Fresh(Array));
    assert Targets(leaf) == [t.pos];
    assert Fits(Nested(o, leaf, c), TOP);
    var behind := [c] + Yield(rest, []);
    assert Yield(leaf, behind) == [t] + behind;
  }

  lemma {:induction false} OnePatternBinds(o: Token, t: Token, c: Token)
    requires o.lexeme.LBrack? && t.lexeme.Ident? && c.lexeme.RBrack?
    ensures BindingTargets([o, t, c]) == {t.pos}
  {
    OnePattern(o, t, c, Nil);
    assert Yield(Cons(Nested(o, Cons(Target(t), Nil), c), Nil), []) == [o, t, c];
    CommitsTheForest([o, t, c]);
  }
}
