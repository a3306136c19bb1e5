/** Destructuring patterns as ECMA-262 has them (sections 13.15.5 and 14.3.3), with plain names for targets and
    plain names for property keys, against the grammar that pkg/tc39/hoist.go accepts. */
module EcmaPatterns {
  import opened Types
  import opened BindingGrammar
  import opened PatternWalk

  // ---------------------------------------------------------------- the patterns

  function CloserFor(l: Lexeme): Lexeme {
    match l
    case LParen => RParen
    case LBrack => RBrack
    case _ => RBrace
  }

  /** Brackets close in order and by kind, down to those in `open`, and commas stand inside brackets only. */
  predicate Balances(expr: seq<Token>, open: seq<Lexeme>) {
    if expr == [] then open == []
    else
      match expr[0].lexeme
      case LParen | LBrack | LBrace => Balances(expr[1..], [CloserFor(expr[0].lexeme)] + open)
      case RParen | RBrack | RBrace => open != [] && open[0] == expr[0].lexeme && Balances(expr[1..], open[1..])
      case Comma => open != [] && Balances(expr[1..], open)
      case _ => Balances(expr[1..], open)
  }

  /** The tokens could be those of an AssignmentExpression. */
  predicate IsExpression(expr: seq<Token>) {
    expr != [] && Balances(expr, [])
  }

  predicate IsPattern(item: Item)
    decreases item, 0
  {
    item.Nested? &&
    ((item.open.lexeme == LBrack && item.close.lexeme == RBrack && IsList(item.items, false)) ||
     (item.open.lexeme == LBrace && item.close.lexeme == RBrace && IsList(item.items, true)))
  }

  predicate IsTargetItem(item: Item)
    decreases item, 1
  {
    match item
    case Target(t) => t.lexeme.Ident?
    case Nested(_, _, _) => IsPattern(item)
    case _ => false
  }

  /** From the start of an element or a property on: elements may be left out in arrays, the last one may be a
      rest, and a property is a name, or a key, a colon and a target. */
  predicate IsList(items: Items, inObject: bool)
    decreases items, 1
  {
    match items
    case Nil => true
    case Cons(Sep(t), rest) => !inObject && t.lexeme == Comma && IsList(rest, inObject)
    case Cons(Spread(t), Cons(target, Nil)) =>
      t.lexeme == Dots && IsTargetItem(target) && (inObject ==> target.Target?)
    case Cons(Key(k, c), Cons(target, rest)) =>
      inObject && k.lexeme.Ident? && c.lexeme == Colon && IsTargetItem(target) && IsEnd(rest, inObject)
    case Cons(Target(t), rest) => t.lexeme.Ident? && IsEnd(rest, inObject)
    case Cons(Nested(_, _, _), rest) => !inObject && IsPattern(items.head) && IsEnd(rest, inObject)
    case _ => false
  }

  /** Behind a target: an initializer, if there is one, and the end or a comma and more. */
  predicate IsEnd(items: Items, inObject: bool)
    decreases items, 0
  {
    match items
    case Nil => true
    case Cons(Sep(t), rest) => t.lexeme == Comma && IsList(rest, inObject)
    case Cons(Default(eq, expr), Nil) => eq.lexeme == Assign && IsExpression(expr)
    case Cons(Default(eq, expr), Cons(Sep(t), rest)) =>
      eq.lexeme == Assign && IsExpression(expr) && t.lexeme == Comma && IsList(rest, inObject)
    case _ => false
  }

  // ---------------------------------------------------------------- where the accepted grammar is looser

  /** A comma where a property should start, a rest that is not one target at the end, a key without a target,
      or a default that is no expression. */
  predicate Slips(items: Items, inObject: bool, atStart: bool) {
    match items
    case Nil => false
    case Cons(Sep(_), rest) => (inObject && atStart) || Slips(rest, inObject, true)
    case Cons(Spread(_), rest) => !IsLastTarget(rest, inObject) || Slips(rest, inObject, false)
    case Cons(Key(_, _), rest) =>
      rest.Nil? || (!rest.head.Target? && !rest.head.Nested?) || Slips(rest, inObject, false)
    case Cons(Default(_, expr), rest) => !IsExpression(expr) || Slips(rest, inObject, false)
    case Cons(Target(_), rest) => Slips(rest, inObject, false)
    case Cons(Nested(open, inner, _), rest) => Slips(inner, open.lexeme == LBrace, true) || Slips(rest, inObject, false)
  }

  predicate IsLastTarget(items: Items, inObject: bool) {
    items.Cons? && items.tail.Nil? && (items.head.Target? || (!inObject && items.head.Nested?))
  }

  lemma {:induction false} ExpressionIsDefault(expr: seq<Token>, open: seq<Lexeme>)
    requires Balances(expr, open)
    ensures IsDefaultExpr(expr, |open|)
  {
    if expr != [] {
      match expr[0].lexeme {
        case LParen | LBrack | LBrace => ExpressionIsDefault(expr[1..], [CloserFor(expr[0].lexeme)] + open);
        case RParen | RBrack | RBrace => ExpressionIsDefault(expr[1..], open[1..]);
        case _ => ExpressionIsDefault(expr[1..], open);
      }
    }
  }

  function KindFor(inObject: bool): Kind {
    if inObject then Object else Array
  }

  /** The frame behind a complete element or property, and behind a key. */
  function Complete(inObject: bool): Frame {
    Frame(KindFor(inObject), false, true)
  }

  const KEYED := Frame(Object, false, false)

  lemma {:induction false} TargetFits(item: Item, f: Frame)
    requires IsTargetItem(item) && !f.kind.Top? && !f.expectSep && (item.Nested? ==> OpensHere(f))
    ensures Fits(item, f)
    ensures After(item, f) ==
            if item.Target? then f.(atPropStart := false, expectSep := true) else f.(expectSep := true)
    ensures item.Nested? ==> !Slips(item.items, item.open.lexeme == LBrace, true)
    decreases item, 3
  {
    if item.Nested? { ListFits(item.items, item.open.lexeme == LBrace); }
  }

  lemma {:induction false} ListFits(items: Items, inObject: bool)
    requires IsList(items, inObject)
    ensures WellFormed(items, Fresh(KindFor(inObject))) && !Slips(items, inObject, true)
    decreases items, 2
  {
    var f := Fresh(KindFor(inObject));
    match items {
      case Nil =>
      case Cons(Sep(t), rest) => ListFits(rest, inObject);
      case Cons(Spread(t), rest) =>
        TargetFits(rest.head, f);
        assert WellFormed(Nil, After(rest.head, f));
        assert WellFormed(rest, f) && !Slips(rest.tail, inObject, false);
        assert !Slips(rest, inObject, false);
      case Cons(Key(k, c), rest) =>
        TargetFits(rest.head, KEYED);
        EndFits(rest.tail, inObject);
        assert WellFormed(rest, KEYED);
      case Cons(Target(t), rest) => EndFits(rest, inObject);
      case Cons(Nested(_, _, _), rest) =>
        TargetFits(items.head, f);
        EndFits(rest, inObject);
    }
  }

  lemma {:induction false} CommaIff(t: Token, rest: Items, inObject: bool)
    ensures var tail := Cons(Sep(t), rest);
            (WellFormed(tail, Complete(inObject)) && !Slips(tail, inObject, false)) <==>
            (t.lexeme == Comma && WellFormed(rest, Fresh(KindFor(inObject))) && !Slips(rest, inObject, true))
  {
    assert AfterComma(Complete(inObject)) == Fresh(KindFor(inObject));
  }

  lemma {:induction false} EndFits(items: Items, inObject: bool)
    requires IsEnd(items, inObject)
    ensures WellFormed(items, Complete(inObject)) && !Slips(items, inObject, false)
    ensures items.Cons? ==> items.head.Sep? || items.head.Default?
    decreases items, 1
  {
    assert AfterComma(Complete(inObject)) == Fresh(KindFor(inObject));
    match items {
      case Nil =>
      case Cons(Sep(t), rest) => ListFits(rest, inObject);
      case Cons(Default(eq, expr), Nil) => ExpressionIsDefault(expr, []);
      case Cons(Default(eq, expr), Cons(Sep(t), rest)) =>
        ExpressionIsDefault(expr, []);
        ListFits(rest, inObject);
        CommaIff(t, rest, inObject);
    }
  }

  // ---------------------------------------------------------------- and nowhere else

  lemma {:induction false} FitsTarget(item: Item, f: Frame)
    requires Fits(item, f) && (item.Target? || item.Nested?)
    requires item.Nested? ==> !Slips(item.items, item.open.lexeme == LBrace, true)
    ensures IsTargetItem(item)
    decreases item, 3
  {
    if item.Nested? { FitsList(item.items, item.open.lexeme == LBrace); }
  }

  lemma {:induction false} FitsList(items: Items, inObject: bool)
    requires WellFormed(items, Fresh(KindFor(inObject))) && !Slips(items, inObject, true)
    ensures IsList(items, inObject)
    decreases items, 2
  {
    var f := Fresh(KindFor(inObject));
    match items {
      case Nil =>
      case Cons(Sep(t), rest) => FitsList(rest, inObject);
      case Cons(Spread(t), rest) =>
        assert !Slips(rest, inObject, false) && Fits(rest.head, f);
        FitsTarget(rest.head, f);
      case Cons(Key(k, c), rest) =>
        assert !Slips(rest, inObject, false) && Fits(rest.head, KEYED);
        FitsTarget(rest.head, KEYED);
        FitsEnd(rest.tail, inObject);
      case Cons(Target(t), rest) => FitsEnd(rest, inObject);
      case Cons(Nested(_, _, _), rest) =>
        FitsTarget(items.head, f);
        FitsEnd(rest, inObject);
      case _ =>
    }
  }

  lemma {:induction false} FitsEnd(items: Items, inObject: bool)
    requires WellFormed(items, Complete(inObject)) && !Slips(items, inObject, false)
    ensures IsEnd(items, inObject)
    decreases items, 1
  {
    assert AfterComma(Complete(inObject)) == Fresh(KindFor(inObject));
    match items {
      case Nil =>
      case Cons(Sep(t), rest) => FitsList(rest, inObject);
      case Cons(Default(eq, expr), Nil) =>
      case Cons(Default(eq, expr), Cons(Sep(t), rest)) =>
        CommaIff(t, rest, inObject);
        FitsList(rest, inObject);
      case _ =>
    }
  }

  /** Of what is accepted behind one bracket, exactly the forests without those slips are patterns. */
  lemma {:induction false} PatternIff(item: Item)
    requires item.Nested?
    ensures IsPattern(item) <==>
            WellFormed(Cons(item, Nil), TOP) && !Slips(item.items, item.open.lexeme == LBrace, true)
  {
    assert WellFormed(Cons(item, Nil), TOP) <==> Fits(item, TOP);
    var inObject := item.open.lexeme == LBrace;
    if IsPattern(item) { ListFits(item.items, inObject); }
    if Fits(item, TOP) && !Slips(item.items, inObject, true) { FitsList(item.items, inObject); }
  }

  lemma {:induction false} AloneInForest(item: Item)
    ensures Yield(Cons(item, Nil), []) == YieldItem(item, []) && Targets(Cons(item, Nil)) == TargetsOf(item)
  {
    var none: seq<nat> := [];
    assert Targets(Nil) == none;
    assert TargetsOf(item) + none == TargetsOf(item);
  }

  /** Every such pattern is accepted with all its targets, and only those. */
  lemma {:induction false} PatternsAccepted(item: Item)
    requires IsPattern(item)
    ensures BindingTargets(YieldItem(item, [])) == set p | p in TargetsOf(item)
  {
    PatternIff(item);
    AloneInForest(item);
    CommitsTheForest(YieldItem(item, []));
  }

  /** And nothing else is: a binding accepted as one bracket without slips is a pattern. */
  lemma {:induction false} AcceptedIsPattern(toks: seq<Token>, items: Items)
    requires ParseItems(toks, 0, TOP) == Accept(|toks|, items)
    requires toks != [] && (toks[0].lexeme.LBrack? || toks[0].lexeme.LBrace?)
    requires BalanceEnd(toks, 1, 1) == Some(|toks|)
    ensures items.Cons? && items.tail.Nil? && items.head.Nested?
    ensures IsPattern(items.head) <==> !Slips(items.head.items, items.head.open.lexeme == LBrace, true)
    ensures YieldItem(items.head, []) == toks
  {
    OnePatternIff(toks);
    AcceptsExactlyTheGrammar(toks, items);
    PatternIff(items.head);
  }
}
