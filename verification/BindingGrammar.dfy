/** The language of for-head bindings that pkg/tc39/hoist.go accepts: its tokens, a grammar with syntax
    forests, and a recursive-descent parser that decides the grammar exactly. */
module BindingGrammar {
  import opened Types

  /** A token of a for-head binding. `Opaque` covers every token the walk does not model: a lone
      dot, `==`, `=>`, an operator, a digit, a stray byte. */
  datatype Lexeme =
    | LBrack | RBrack | LBrace | RBrace | LParen | RParen
    | Comma | Colon | Assign | Dots | Opaque
    | Ident(name: string)

  datatype Token = Token(lexeme: Lexeme, pos: nat)

  /** `Top` stands for the empty stack. */
  datatype Kind = Top | Array | Object

  /** One bracket context. `atPropStart` matters for objects only: the next token opens a property.
      `expectSep` says that the current element already has a complete value. */
  datatype Frame = Frame(kind: Kind, atPropStart: bool, expectSep: bool)

  const TOP := Frame(Top, false, false)

  function Fresh(kind: Kind): Frame {
    Frame(kind, kind.Object?, false)
  }

  /** The frame after its current element got a complete value; the empty stack has no element. */
  function Completed(f: Frame): Frame {
    if f.kind.Top? then f else f.(expectSep := true)
  }

  function AfterComma(f: Frame): Frame {
    Frame(f.kind, f.kind.Object?, false)
  }

  predicate OpensHere(f: Frame) {
    !f.expectSep && !(f.kind.Object? && f.atPropStart)
  }

  // ---------------------------------------------------------------- default expressions

  predicate IsOpener(l: Lexeme) {
    l.LParen? || l.LBrack? || l.LBrace?
  }

  predicate IsCloser(l: Lexeme) {
    l.RParen? || l.RBrack? || l.RBrace?
  }

  /** The tokens of a default expression entered at bracket depth `depth`: brackets balance to zero
      without regard to their kind, and no comma stands at depth zero. */
  predicate IsDefaultExpr(expr: seq<Token>, depth: nat) {
    if expr == [] then depth == 0
    else
      var l := expr[0].lexeme;
      if IsOpener(l) then IsDefaultExpr(expr[1..], depth + 1)
      else if IsCloser(l) then depth > 0 && IsDefaultExpr(expr[1..], depth - 1)
      else (l.Comma? ==> depth > 0) && IsDefaultExpr(expr[1..], depth)
  }

  predicate EndsDefault(t: Token) {
    IsCloser(t.lexeme) || t.lexeme.Comma?
  }

  /** The index of the separator or closer that ends the default entered at `j`, or the end. */
  function DefaultEnd(toks: seq<Token>, j: nat, depth: nat): (e: nat)
    requires j <= |toks|
    ensures j <= e <= |toks|
    decreases |toks| - j
  {
    if j == |toks| then j
    else
      var l := toks[j].lexeme;
      if IsOpener(l) then DefaultEnd(toks, j + 1, depth + 1)
      else if depth == 0 && (IsCloser(l) || l.Comma?) then j
      else if IsCloser(l) then DefaultEnd(toks, j + 1, depth - 1)
      else DefaultEnd(toks, j + 1, depth)
  }

  /** The skip stops exactly behind a default expression: whenever it stops before the end of the
      tokens, what it skipped is one and the token it stops on ends it. */
  lemma {:induction false} DefaultEndSound(toks: seq<Token>, j: nat, depth: nat)
    requires j <= |toks|
    ensures var e := DefaultEnd(toks, j, depth);
            e < |toks| ==> IsDefaultExpr(toks[j..e], depth) && EndsDefault(toks[e])
    decreases |toks| - j
  {
    var e := DefaultEnd(toks, j, depth);
    if j < e < |toks| {
      var l := toks[j].lexeme;
      assert toks[j..e][1..] == toks[j + 1..e];
      DefaultEndSound(toks, j + 1, if IsOpener(l) then depth + 1 else if IsCloser(l) then depth - 1 else depth);
    }
  }

  /** Conversely a default expression followed by a separator or closer is skipped whole. */
  lemma {:induction false} DefaultEndComplete(toks: seq<Token>, j: nat, e: nat, depth: nat)
    requires j <= e < |toks|
    requires IsDefaultExpr(toks[j..e], depth) && EndsDefault(toks[e])
    ensures DefaultEnd(toks, j, depth) == e
    decreases e - j
  {
    if j == e {
    } else {
      var l := toks[j].lexeme;
      assert toks[j..e][0] == toks[j] && toks[j..e][1..] == toks[j + 1..e];
      DefaultEndComplete(toks, j + 1, e, if IsOpener(l) then depth + 1 else if IsCloser(l) then depth - 1 else depth);
    }
  }

  // ---------------------------------------------------------------- the grammar

  /** A syntax forest over the tokens. */
  datatype Item =
    | Sep(tok: Token)
    | Spread(tok: Token)
    | Key(key: Token, colon: Token)
    | Target(tok: Token)
    | Default(eq: Token, expr: seq<Token>)
    | Nested(open: Token, items: Items, close: Token)

  datatype Items = Nil | Cons(head: Item, tail: Items)

  predicate IsCloserOf(l: Lexeme, kind: Kind) {
    match kind
    case Top => false
    case Array => l.RBrack?
    case Object => l.RBrace?
  }

  function KindOf(open: Lexeme): Kind
    requires open.LBrack? || open.LBrace?
  {
    if open.LBrack? then Array else Object
  }

  /** The frame behind an item. */
  function After(item: Item, f: Frame): Frame {
    match item
    case Sep(_) => AfterComma(f)
    case Spread(_) => f
    case Key(_, _) => f.(atPropStart := false)
    case Target(_) => f.(atPropStart := false, expectSep := true)
    case Default(_, _) => f
    case Nested(_, _, _) => Completed(f)
  }

  /** The grammar the walk accepts, which is looser than ECMA-262: elisions, repeated `...`, an empty
      value after a key, and at the top level any run of patterns, commas and dots. */
  predicate WellFormed(items: Items, f: Frame) {
    match items
    case Nil => true
    case Cons(item, rest) =>
      Fits(item, f) && WellFormed(rest, After(item, f)) &&
      (item.Default? ==> rest.Nil? || rest.head.Sep?)
  }

  predicate Fits(item: Item, f: Frame) {
    match item
    case Sep(t) => t.lexeme.Comma?
    case Spread(t) => t.lexeme.Dots? && !f.expectSep
    case Key(k, c) => f.kind.Object? && f.atPropStart && !f.expectSep && k.lexeme.Ident? && c.lexeme.Colon?
    case Target(t) => !f.kind.Top? && !f.expectSep && t.lexeme.Ident?
    case Default(eq, expr) => !f.kind.Top? && f.expectSep && eq.lexeme.Assign? && IsDefaultExpr(expr, 0)
    case Nested(o, inner, c) =>
      OpensHere(f) && (o.lexeme.LBrack? || o.lexeme.LBrace?) && IsCloserOf(c.lexeme, KindOf(o.lexeme)) &&
      WellFormed(inner, Fresh(KindOf(o.lexeme)))
  }

  /** The tokens of a forest, in order, followed by `tail`. */
  function Yield(items: Items, tail: seq<Token>): seq<Token> {
    match items
    case Nil => tail
    case Cons(item, rest) => YieldItem(item, Yield(rest, tail))
  }

  function YieldItem(item: Item, tail: seq<Token>): seq<Token> {
    match item
    case Sep(t) => [t] + tail
    case Spread(t) => [t] + tail
    case Key(k, c) => [k] + ([c] + tail)
    case Target(t) => [t] + tail
    case Default(eq, expr) => [eq] + (expr + tail)
    case Nested(o, inner, c) => [o] + Yield(inner, [c] + tail)
  }

  /** The offsets a forest binds: its target leaves. A default expression contributes none. */
  function Targets(items: Items): seq<nat> {
    match items
    case Nil => []
    case Cons(item, rest) => TargetsOf(item) + Targets(rest)
  }

  function TargetsOf(item: Item): seq<nat> {
    match item
    case Target(t) => [t.pos]
    case Nested(_, inner, _) => Targets(inner)
    case _ => []
  }

  // ---------------------------------------------------------------- recursive descent

  /** What the next token does to a frame: nothing fits, the frame closes, an item is complete and
      the frame goes on as `g` from token `m`, or a nested pattern opens. */
  datatype Move = Stuck | Close | Take(item: Item, m: nat, g: Frame) | Open(kind: Kind)

  function Next(toks: seq<Token>, i: nat, f: Frame): (move: Move)
    requires i < |toks|
    ensures move.Take? ==> i < move.m <= |toks| && move.g.kind == f.kind
    ensures move.Close? ==> !f.kind.Top?
  {
    var t := toks[i];
    match t.lexeme
    case LBrack | LBrace => if OpensHere(f) then Open(KindOf(t.lexeme)) else Stuck
    case RBrack | RBrace => if IsCloserOf(t.lexeme, f.kind) then Close else Stuck
    case Comma => Take(Sep(t), i + 1, AfterComma(f))
    case Dots => if f.expectSep then Stuck else Take(Spread(t), i + 1, f)
    case Assign =>
      if f.kind.Top? || !f.expectSep then Stuck
      else
        var e := DefaultEnd(toks, i + 1, 0);
        Take(Default(t, toks[i + 1..e]), e, f)
    case Ident(_) =>
      if f.kind.Top? || f.expectSep then Stuck
      else if f.kind.Object? && f.atPropStart && i + 1 < |toks| && toks[i + 1].lexeme.Colon? then
        Take(Key(t, toks[i + 1]), i + 2, f.(atPropStart := false))
      else Take(Target(t), i + 1, f.(atPropStart := false, expectSep := true))
    case _ => Stuck
  }

  datatype Parse = Reject | Accept(next: nat, items: Items) {
    function Prepend(item: Item): Parse {
      if Reject? then Reject else Accept(next, Cons(item, items))
    }
  }

  /** Parses the rest of frame `f` from token `i` up to and including its closer; the top frame
      runs to the end of the tokens. */
  function ParseItems(toks: seq<Token>, i: nat, f: Frame): (r: Parse)
    requires i <= |toks|
    ensures r.Accept? ==> i <= r.next <= |toks| && (if f.kind.Top? then r.next == |toks| else i < r.next)
    decreases |toks| - i
  {
    if i == |toks| then
      if f.kind.Top? then Accept(i, Nil) else Reject
    else
      match Next(toks, i, f)
      case Stuck => Reject
      case Close => Accept(i + 1, Nil)
      case Take(item, m, g) => ParseItems(toks, m, g).Prepend(item)
      case Open(kind) =>
        var inner := ParseItems(toks, i + 1, Fresh(kind));
        if inner.Reject? then Reject
        else ParseItems(toks, inner.next, Completed(f)).Prepend(Nested(toks[i], inner.items, toks[inner.next - 1]))
  }

  /** An array frame never marks a property start; the top frame marks nothing. */
  predicate Proper(f: Frame) {
    (!f.kind.Object? ==> !f.atPropStart) && (f.kind.Top? ==> !f.expectSep)
  }

  /** What an accepted frame covers: its items and, below the top, its closer. */
  ghost predicate Covers(toks: seq<Token>, i: nat, n: nat, f: Frame, items: Items)
    requires i <= n <= |toks|
  {
    if f.kind.Top? then n == |toks| && toks[i..] == Yield(items, [])
    else i < n && IsCloserOf(toks[n - 1].lexeme, f.kind) && toks[i..] == Yield(items, toks[n - 1..])
  }

  ghost predicate Sound(toks: seq<Token>, i: nat, f: Frame)
    requires i <= |toks|
  {
    var r := ParseItems(toks, i, f);
    r.Accept? ==> WellFormed(r.items, f) && Covers(toks, i, r.next, f, r.items)
  }

  lemma {:induction false} MoveFits(toks: seq<Token>, i: nat, f: Frame)
    requires i < |toks| && Next(toks, i, f).Take? && Proper(f)
    ensures var move := Next(toks, i, f);
            Proper(move.g) && move.g == After(move.item, f) &&
            (move.m < |toks| ==> Fits(move.item, f) && (move.item.Default? ==> EndsDefault(toks[move.m]))) &&
            (!move.item.Default? ==> Fits(move.item, f))
  {
    if toks[i].lexeme.Assign? { DefaultEndSound(toks, i + 1, 0); }
  }

  lemma {:induction false} MoveSpells(toks: seq<Token>, i: nat, f: Frame)
    requires i < |toks| && Next(toks, i, f).Take?
    ensures toks[i..] == YieldItem(Next(toks, i, f).item, toks[Next(toks, i, f).m..])
  {
    var move := Next(toks, i, f);
    if move.item.Key? || move.item.Default? {
      TwoPieces(toks, i, move.m);
      assert move.item.Key? ==> toks[i + 1..move.m] == [toks[i + 1]];
    } else {
      OnePiece(toks, i);
    }
  }

  /** An item taken by a move fits its frame and spells the tokens it took. */
  lemma {:induction false} MoveSound(toks: seq<Token>, i: nat, f: Frame)
    requires i < |toks| && Next(toks, i, f).Take? && Proper(f)
    ensures var move := Next(toks, i, f);
            Proper(move.g) && move.g == After(move.item, f) &&
            toks[i..] == YieldItem(move.item, toks[move.m..]) &&
            (move.m < |toks| ==> Fits(move.item, f) && (move.item.Default? ==> EndsDefault(toks[move.m]))) &&
            (!move.item.Default? ==> Fits(move.item, f))
  {
    MoveFits(toks, i, f);
    MoveSpells(toks, i, f);
  }

  lemma {:induction false} OnePiece(toks: seq<Token>, i: nat)
    requires i < |toks|
    ensures toks[i..] == [toks[i]] + toks[i + 1..]
  {
  }

  lemma {:induction false} TwoPieces(toks: seq<Token>, i: nat, m: nat)
    requires i < m <= |toks|
    ensures toks[i..] == [toks[i]] + (toks[i + 1..m] + toks[m..])
  {
  }

  lemma {:induction false} TakeSound(toks: seq<Token>, i: nat, f: Frame)
    requires i < |toks| && Next(toks, i, f).Take? && Proper(f)
    requires Sound(toks, Next(toks, i, f).m, Next(toks, i, f).g)
    ensures Sound(toks, i, f)
  {
    var move := Next(toks, i, f);
    MoveSound(toks, i, f);
    var r := ParseItems(toks, move.m, move.g);
    if r.Accept? && move.item.Default? {
      assert move.m < |toks|;
      assert r.items.Nil? || r.items.head.Sep?;
    }
  }

  lemma {:induction false} NestedCovers(toks: seq<Token>, i: nat, m: nat, n: nat, f: Frame, kind: Kind, inner: Items,
                                        items: Items)
    requires i < m - 1 < m <= n <= |toks| && !kind.Top?
    requires Covers(toks, i + 1, m, Fresh(kind), inner) && Covers(toks, m, n, Completed(f), items)
    ensures Covers(toks, i, n, f, Cons(Nested(toks[i], inner, toks[m - 1]), items))
  {
    assert toks[i..] == [toks[i]] + toks[i + 1..];
    assert toks[m - 1..] == [toks[m - 1]] + toks[m..];
  }

  lemma {:induction false} NestedSound(toks: seq<Token>, i: nat, f: Frame, inner: Parse, r: Parse)
    requires i < |toks| && Next(toks, i, f).Open?
    requires inner == ParseItems(toks, i + 1, Fresh(Next(toks, i, f).kind)) && inner.Accept?
    requires r == ParseItems(toks, inner.next, Completed(f))
    requires Sound(toks, i + 1, Fresh(Next(toks, i, f).kind)) && Sound(toks, inner.next, Completed(f))
    ensures Sound(toks, i, f)
  {
    var kind := Next(toks, i, f).kind;
    var item := Nested(toks[i], inner.items, toks[inner.next - 1]);
    assert ParseItems(toks, i, f) == r.Prepend(item);
    if r.Accept? {
      NestedCovers(toks, i, inner.next, r.next, f, kind, inner.items, r.items);
      assert Fits(item, f);
      assert WellFormed(Cons(item, r.items), f);
    }
  }

  /** Every accepted parse is a well-formed forest over exactly the tokens consumed. */
  lemma {:induction false} ParseSound(toks: seq<Token>, i: nat, f: Frame)
    requires i <= |toks| && Proper(f)
    ensures Sound(toks, i, f)
    decreases |toks| - i
  {
    if i == |toks| {
    } else {
      match Next(toks, i, f) {
        case Stuck =>
        case Close =>
        case Take(item, m, g) =>
          MoveSound(toks, i, f);
          ParseSound(toks, m, g);
          TakeSound(toks, i, f);
        case Open(kind) =>
          var inner := ParseItems(toks, i + 1, Fresh(kind));
          if inner.Accept? {
            ParseSound(toks, i + 1, Fresh(kind));
            ParseSound(toks, inner.next, Completed(f));
            NestedSound(toks, i, f, inner, ParseItems(toks, inner.next, Completed(f)));
          }
      }
    }
  }

  /** The tokens that follow the items of frame `f`: nothing at the top, else its closer first. */
  ghost predicate Follows(tail: seq<Token>, f: Frame) {
    if f.kind.Top? then tail == [] else tail != [] && IsCloserOf(tail[0].lexeme, f.kind)
  }

  /** The parser reads the head of a well-formed forest back. */
  lemma {:induction false} HeadComplete(toks: seq<Token>, i: nat, f: Frame, item: Item, rest: seq<Token>)
    requires i <= |toks| && Proper(f) && Fits(item, f) && !item.Nested?
    requires toks[i..] == YieldItem(item, rest)
    requires item.Target? ==> rest != [] && !rest[0].lexeme.Colon?
    requires item.Default? ==> rest != [] && EndsDefault(rest[0])
    ensures i < |toks| && Next(toks, i, f) == Take(item, |toks| - |rest|, After(item, f))
    ensures |rest| < |toks| - i && toks[|toks| - |rest|..] == rest
  {
    var m := |toks| - |rest|;
    assert toks[m..] == toks[i..][m - i..] == rest;
    assert toks[i] == toks[i..][0];
    match item {
      case Key(_, c) => assert toks[i + 1] == toks[i..][1];
      case Target(_) => assert toks[m] == rest[0];
      case Default(_, expr) =>
        assert toks[m] == rest[0];
        assert toks[i + 1..m] == toks[i..][1..m - i] == expr;
        DefaultEndComplete(toks, i + 1, m, 0);
      case _ =>
    }
  }

  lemma {:induction false} ParseOpen(toks: seq<Token>, i: nat, f: Frame)
    requires i < |toks| && Next(toks, i, f).Open?
    ensures var inner := ParseItems(toks, i + 1, Fresh(Next(toks, i, f).kind));
            ParseItems(toks, i, f) ==
            if inner.Reject? then Reject
            else ParseItems(toks, inner.next, Completed(f)).Prepend(Nested(toks[i], inner.items, toks[inner.next - 1]))
  {
  }

  lemma {:induction false} OpenComplete(toks: seq<Token>, i: nat, f: Frame, item: Item, rest: seq<Token>)
    requires i <= |toks| && Proper(f) && Fits(item, f) && item.Nested?
    requires toks[i..] == YieldItem(item, rest)
    ensures i < |toks| && Next(toks, i, f) == Open(KindOf(item.open.lexeme)) && toks[i] == item.open
    ensures toks[i + 1..] == Yield(item.items, [item.close] + rest)
    ensures |rest| + 1 < |toks| - i && toks[|toks| - |rest| - 1] == item.close && toks[|toks| - |rest|..] == rest
  {
    var close := [item.close] + rest;
    assert toks[i] == toks[i..][0];
    assert toks[i + 1..] == toks[i..][1..];
    YieldEnds(item.items, close);
    CloserSplits(toks, i + 1, item.close, rest);
  }

  lemma {:induction false} CloserSplits(toks: seq<Token>, i: nat, close: Token, rest: seq<Token>)
    requires i <= |toks| && EndsIn(toks[i..], [close] + rest)
    ensures |rest| < |toks| - i && toks[|toks| - |rest| - 1] == close && toks[|toks| - |rest|..] == rest
  {
    var m := |toks| - |rest|;
    assert toks[m - 1..] == toks[i..][m - 1 - i..] == [close] + rest;
    assert toks[m..] == toks[m - 1..][1..];
  }

  lemma {:induction false} YieldStarts(items: Items, f: Frame, tail: seq<Token>)
    requires WellFormed(items, f) && Follows(tail, f) && !f.kind.Top?
    ensures var y := Yield(items, tail);
            y != [] && !y[0].lexeme.Colon? && (items.Nil? || items.head.Sep? ==> EndsDefault(y[0]))
  {
  }

  /** Where the frame that ends before `tail` ends itself. */
  function FrameEnd(toks: seq<Token>, f: Frame, tail: seq<Token>): int {
    |toks| - |tail| + if f.kind.Top? then 0 else 1
  }

  lemma {:induction false} CompleteOpen(toks: seq<Token>, i: nat, f: Frame, item: Item, m: nat, n: int, rest: Items)
    requires i + 1 < m <= |toks| && item.Nested? && toks[i] == item.open && toks[m - 1] == item.close
    requires item.open.lexeme.LBrack? || item.open.lexeme.LBrace?
    requires Next(toks, i, f) == Open(KindOf(item.open.lexeme))
    requires ParseItems(toks, i + 1, Fresh(KindOf(item.open.lexeme))) == Accept(m, item.items)
    requires n >= 0 && ParseItems(toks, m, Completed(f)) == Accept(n, rest)
    ensures ParseItems(toks, i, f) == Accept(n, Cons(item, rest))
  {
    ParseOpen(toks, i, f);
  }

  lemma {:induction false} CompleteTake(toks: seq<Token>, i: nat, f: Frame, item: Item, m: nat, g: Frame, n: int,
                                        rest: Items)
    requires i < m <= |toks| && Next(toks, i, f) == Take(item, m, g)
    requires n >= 0 && ParseItems(toks, m, g) == Accept(n, rest)
    ensures ParseItems(toks, i, f) == Accept(n, Cons(item, rest))
  {
  }

  lemma {:induction false} CompleteNil(toks: seq<Token>, i: nat, f: Frame, tail: seq<Token>)
    requires i <= |toks| && Follows(tail, f) && toks[i..] == tail
    ensures |tail| <= |toks| - i && ParseItems(toks, i, f) == Accept(FrameEnd(toks, f, tail), Nil)
  {
    if i < |toks| {
      assert toks[i] == tail[0];
      assert Next(toks, i, f).Close?;
    }
  }

  /** Every well-formed forest is recognised, and as itself: the grammar is unambiguous. */
  lemma {:induction false} ParseComplete(toks: seq<Token>, i: nat, f: Frame, items: Items, tail: seq<Token>)
    requires i <= |toks| && Proper(f)
    requires WellFormed(items, f) && Follows(tail, f)
    requires toks[i..] == Yield(items, tail)
    ensures |tail| <= |toks| - i
    ensures ParseItems(toks, i, f) == Accept(FrameEnd(toks, f, tail), items)
    decreases items
  {
    match items {
      case Nil => CompleteNil(toks, i, f, tail);
      case Cons(item, rest) =>
        var behind := Yield(rest, tail);
        var m := |toks| - |behind|;
        if item.Nested? {
          NestedComplete(toks, i, f, item, behind);
          ParseComplete(toks, m, Completed(f), rest, tail);
          CompleteOpen(toks, i, f, item, m, FrameEnd(toks, f, tail), rest);
        } else {
          FlatComplete(toks, i, f, item, rest, tail);
          ParseComplete(toks, m, After(item, f), rest, tail);
          CompleteTake(toks, i, f, item, m, After(item, f), FrameEnd(toks, f, tail), rest);
        }
    }
  }

  lemma {:induction false} FlatComplete(toks: seq<Token>, i: nat, f: Frame, item: Item, rest: Items, tail: seq<Token>)
    requires i <= |toks| && Proper(f) && !item.Nested?
    requires WellFormed(Cons(item, rest), f) && Follows(tail, f) && toks[i..] == YieldItem(item, Yield(rest, tail))
    ensures var m := |toks| - |Yield(rest, tail)|;
            i < m <= |toks| && Next(toks, i, f) == Take(item, m, After(item, f)) && toks[m..] == Yield(rest, tail)
    ensures Proper(After(item, f)) && Follows(tail, After(item, f)) && WellFormed(rest, After(item, f))
  {
    if !f.kind.Top? { YieldStarts(rest, After(item, f), tail); }
    HeadComplete(toks, i, f, item, Yield(rest, tail));
  }

  lemma {:induction false} NestedComplete(toks: seq<Token>, i: nat, f: Frame, item: Item, behind: seq<Token>)
    requires i <= |toks| && Proper(f) && item.Nested? && Fits(item, f) && toks[i..] == YieldItem(item, behind)
    ensures i < |toks| && Next(toks, i, f) == Open(KindOf(item.open.lexeme)) && toks[i] == item.open
    ensures |behind| + 1 < |toks| - i && toks[|toks| - |behind| - 1] == item.close
    ensures toks[|toks| - |behind|..] == behind
    ensures ParseItems(toks, i + 1, Fresh(KindOf(item.open.lexeme))) == Accept(|toks| - |behind|, item.items)
    decreases item
  {
    OpenComplete(toks, i, f, item, behind);
    ParseComplete(toks, i + 1, Fresh(KindOf(item.open.lexeme)), item.items, [item.close] + behind);
  }

  lemma {:induction false} YieldEnds(items: Items, tail: seq<Token>)
    ensures EndsIn(Yield(items, tail), tail)
    decreases items
  {
    match items {
      case Nil =>
      case Cons(item, rest) =>
        YieldEnds(rest, tail);
        YieldItemEnds(item, Yield(rest, tail));
        EndsInTrans(Yield(items, tail), Yield(rest, tail), tail);
    }
  }

  lemma {:induction false} YieldItemEnds(item: Item, tail: seq<Token>)
    ensures EndsIn(YieldItem(item, tail), tail)
    decreases item
  {
    match item {
      case Sep(t) => EndsInMore([t], tail);
      case Spread(t) => EndsInMore([t], tail);
      case Target(t) => EndsInMore([t], tail);
      case Key(k, c) =>
        EndsInMore([c], tail);
        EndsInMore([k], [c] + tail);
        EndsInTrans([k] + ([c] + tail), [c] + tail, tail);
      case Default(eq, expr) =>
        EndsInMore(expr, tail);
        EndsInMore([eq], expr + tail);
        EndsInTrans([eq] + (expr + tail), expr + tail, tail);
      case Nested(o, inner, c) =>
        var y := Yield(inner, [c] + tail);
        YieldEnds(inner, [c] + tail);
        EndsInMore([c], tail);
        EndsInTrans(y, [c] + tail, tail);
        EndsInMore([o], y);
        EndsInTrans([o] + y, y, tail);
    }
  }

  lemma {:induction false} EndsInMore(more: seq<Token>, tail: seq<Token>)
    ensures EndsIn(more + tail, tail)
  {
  }

  ghost predicate EndsIn(s: seq<Token>, tail: seq<Token>) {
    |tail| <= |s| && s[|s| - |tail|..] == tail
  }

  lemma {:induction false} EndsInTrans(s: seq<Token>, t: seq<Token>, u: seq<Token>)
    requires EndsIn(s, t) && EndsIn(t, u)
    ensures EndsIn(s, u)
  {
    assert s[|s| - |u|..] == s[|s| - |t|..][|t| - |u|..];
  }

  /** The recogniser decides the grammar, on every token sequence. */
  lemma {:induction false} AcceptsExactlyTheGrammar(toks: seq<Token>, items: Items)
    ensures ParseItems(toks, 0, TOP) == Accept(|toks|, items) <==> WellFormed(items, TOP) && Yield(items, []) == toks
  {
    assert toks[0..] == toks;
    if ParseItems(toks, 0, TOP) == Accept(|toks|, items) {
      ParseSound(toks, 0, TOP);
    }
    if WellFormed(items, TOP) && Yield(items, []) == toks {
      ParseComplete(toks, 0, TOP, items, []);
    }
  }

  // ---------------------------------------------------------------- the shape of accepted bindings

  /** The part a token plays in a forest. */
  datatype Role = Binds | InDefault | Opens | Closes | Other

  function RolesOf(item: Item, tail: seq<Role>): seq<Role> {
    match item
    case Sep(_) => [Other] + tail
    case Spread(_) => [Other] + tail
    case Key(_, _) => [Other] + ([Other] + tail)
    case Target(_) => [Binds] + tail
    case Default(_, expr) => [Other] + (DefaultRoles(|expr|) + tail)
    case Nested(_, inner, _) => [Opens] + Roles(inner, [Closes] + tail)
  }

  function Roles(items: Items, tail: seq<Role>): seq<Role> {
    match items
    case Nil => tail
    case Cons(item, rest) => RolesOf(item, Roles(rest, tail))
  }

  function DefaultRoles(n: nat): (r: seq<Role>)
    ensures |r| == n && forall k :: 0 <= k < n ==> r[k] == InDefault
  {
    seq(n, _ => InDefault)
  }

  /** The positions of the tokens that bind. */
  function Bound(toks: seq<Token>, roles: seq<Role>): seq<nat>
    requires |toks| == |roles|
  {
    if toks == [] then [] else (if roles[0].Binds? then [toks[0].pos] else []) + Bound(toks[1..], roles[1..])
  }

  /** Read without the default expressions, brackets match, kind by kind. */
  predicate Matched(toks: seq<Token>, roles: seq<Role>, open: seq<Kind>)
    requires |toks| == |roles|
  {
    if toks == [] then open == []
    else
      var l := toks[0].lexeme;
      if roles[0].InDefault? then Matched(toks[1..], roles[1..], open)
      else if l.LBrack? || l.LBrace? then Matched(toks[1..], roles[1..], [KindOf(l)] + open)
      else if l.RBrack? || l.RBrace? then
        open != [] && IsCloserOf(l, open[0]) && Matched(toks[1..], roles[1..], open[1..])
      else Matched(toks[1..], roles[1..], open)
  }

  lemma {:induction false} Peel(t: Token, toks: seq<Token>, r: Role, roles: seq<Role>, open: seq<Kind>)
    requires |toks| == |roles|
    ensures Bound([t] + toks, [r] + roles) == (if r.Binds? then [t.pos] else []) + Bound(toks, roles)
    ensures Matched([t] + toks, [r] + roles, open) ==
            if r.InDefault? then Matched(toks, roles, open)
            else if t.lexeme.LBrack? || t.lexeme.LBrace? then Matched(toks, roles, [KindOf(t.lexeme)] + open)
            else if t.lexeme.RBrack? || t.lexeme.RBrace? then
              open != [] && IsCloserOf(t.lexeme, open[0]) && Matched(toks, roles, open[1..])
            else Matched(toks, roles, open)
  {
    assert ([t] + toks)[1..] == toks && ([r] + roles)[1..] == roles;
  }

  lemma {:induction false} PeelDefault(expr: seq<Token>, toks: seq<Token>, roles: seq<Role>, open: seq<Kind>)
    requires |toks| == |roles|
    ensures Bound(expr + toks, DefaultRoles(|expr|) + roles) == Bound(toks, roles)
    ensures Matched(expr + toks, DefaultRoles(|expr|) + roles, open) == Matched(toks, roles, open)
  {
    if expr == [] {
      assert expr + toks == toks && DefaultRoles(0) + roles == roles;
    } else {
      assert expr + toks == [expr[0]] + (expr[1..] + toks);
      assert DefaultRoles(|expr|) + roles == [InDefault] + (DefaultRoles(|expr| - 1) + roles);
      Peel(expr[0], expr[1..] + toks, InDefault, DefaultRoles(|expr| - 1) + roles, open);
      PeelDefault(expr[1..], toks, roles, open);
    }
  }

  ghost predicate ItemReads(item: Item, toks: seq<Token>, roles: seq<Role>, open: seq<Kind>)
    requires |toks| == |roles|
  {
    var t, r := YieldItem(item, toks), RolesOf(item, roles);
    |t| == |r| && Bound(t, r) == TargetsOf(item) + Bound(toks, roles) &&
      Matched(t, r, open) == Matched(toks, roles, open)
  }

  lemma {:induction false} ItemShape(item: Item, f: Frame, toks: seq<Token>, roles: seq<Role>, open: seq<Kind>)
    requires |toks| == |roles| && Fits(item, f)
    ensures ItemReads(item, toks, roles, open)
    decreases item
  {
    match item {
      case Sep(t) => Peel(t, toks, Other, roles, open);
      case Spread(t) => Peel(t, toks, Other, roles, open);
      case Key(k, c) =>
        Peel(c, toks, Other, roles, open);
        Peel(k, [c] + toks, Other, [Other] + roles, open);
      case Target(t) => Peel(t, toks, Binds, roles, open);
      case Default(eq, expr) =>
        PeelDefault(expr, toks, roles, open);
        Peel(eq, expr + toks, Other, DefaultRoles(|expr|) + roles, open);
      case Nested(o, inner, c) =>
        var kind := KindOf(o.lexeme);
        var inside := [kind] + open;
        assert inside[1..] == open;
        Peel(c, toks, Closes, roles, inside);
        ForestShape(inner, Fresh(kind), [c] + toks, [Closes] + roles, inside);
        Peel(o, Yield(inner, [c] + toks), Opens, Roles(inner, [Closes] + roles), open);
    }
  }

  lemma {:induction false} ForestShape(items: Items, f: Frame, toks: seq<Token>, roles: seq<Role>, open: seq<Kind>)
    requires |toks| == |roles| && WellFormed(items, f)
    ensures |Yield(items, toks)| == |Roles(items, roles)|
    ensures Bound(Yield(items, toks), Roles(items, roles)) == Targets(items) + Bound(toks, roles)
    ensures Matched(Yield(items, toks), Roles(items, roles), open) == Matched(toks, roles, open)
    decreases items
  {
    match items {
      case Nil =>
      case Cons(item, rest) =>
        ForestShape(rest, After(item, f), toks, roles, open);
        ItemShape(item, f, Yield(rest, toks), Roles(rest, roles), open);
    }
  }

  /** An accepted binding assigns every token a role such that the committed offsets are exactly those
      of the binding tokens, in order, none of them inside a default expression, and the brackets
      outside default expressions match kind by kind. */
  lemma {:induction false} AcceptedShape(toks: seq<Token>)
    requires ParseItems(toks, 0, TOP).Accept?
    ensures var items := ParseItems(toks, 0, TOP).items;
            var roles := Roles(items, []);
            |roles| == |toks| && Targets(items) == Bound(toks, roles) && Matched(toks, roles, [])
  {
    var items := ParseItems(toks, 0, TOP).items;
    AcceptsExactlyTheGrammar(toks, items);
    ForestShape(items, TOP, [], [], []);
  }

  lemma {:induction false} BoundIsRole(toks: seq<Token>, roles: seq<Role>, p: nat)
    requires |toks| == |roles|
    ensures p in Bound(toks, roles) <==> exists k :: 0 <= k < |toks| && roles[k].Binds? && toks[k].pos == p
  {
    if toks == [] {
    } else {
      BoundIsRole(toks[1..], roles[1..], p);
      if k :| 0 <= k < |toks| && roles[k].Binds? && toks[k].pos == p {
        if k > 0 { assert toks[1..][k - 1] == toks[k] && roles[1..][k - 1] == roles[k]; }
      }
      if k :| 0 <= k < |toks[1..]| && roles[1..][k].Binds? && toks[1..][k].pos == p {
        assert roles[k + 1].Binds? && toks[k + 1].pos == p;
      }
    }
  }

  /** The lexemes that can stand right before a target. */
  predicate PrecedesTarget(l: Lexeme) {
    l.LBrack? || l.LBrace? || l.Comma? || l.Dots? || l.Colon?
  }

  ghost predicate TargetAt(toks: seq<Token>, p: nat, k: nat) {
    0 < k < |toks| && toks[k].pos == p && toks[k].lexeme.Ident? && PrecedesTarget(toks[k - 1].lexeme)
  }

  /** Every target is an identifier token right behind a bracket, comma, `...` or colon. */
  lemma {:induction false} TargetsFollowPunctuation(toks: seq<Token>, i: nat, f: Frame, p: nat)
    requires i <= |toks| && ParseItems(toks, i, f).Accept? && p in Targets(ParseItems(toks, i, f).items)
    requires f.kind.Top? || f.expectSep || (i > 0 && PrecedesTarget(toks[i - 1].lexeme))
    ensures exists k :: TargetAt(toks, p, k)
    decreases |toks| - i
  {
    if i == |toks| {
    } else {
      match Next(toks, i, f) {
        case Stuck =>
        case Close =>
        case Take(item, m, g) =>
          if p in TargetsOf(item) {
            assert TargetAt(toks, p, i);
          } else {
            TargetsFollowPunctuation(toks, m, g, p);
          }
        case Open(kind) =>
          var inner := ParseItems(toks, i + 1, Fresh(kind));
          ParseOpen(toks, i, f);
          if p in Targets(inner.items) {
            TargetsFollowPunctuation(toks, i + 1, Fresh(kind), p);
          } else {
            TargetsFollowPunctuation(toks, inner.next, Completed(f), p);
          }
      }
    }
  }

  // ---------------------------------------------------------------- one pattern or several

  /** The index behind the token at which the bracket depth, counting brackets of every kind from `depth`
      at token `i`, first returns to zero. */
  function BalanceEnd(toks: seq<Token>, i: nat, depth: nat): Option<nat>
    requires i <= |toks|
    decreases |toks| - i
  {
    if i == |toks| then None
    else if IsOpener(toks[i].lexeme) then BalanceEnd(toks, i + 1, depth + 1)
    else if IsCloser(toks[i].lexeme) then (if depth <= 1 then Some(i + 1) else BalanceEnd(toks, i + 1, depth - 1))
    else BalanceEnd(toks, i + 1, depth)
  }

  /** A default expression keeps the count. */
  lemma {:induction false} DefaultBalances(toks: seq<Token>, j: nat, inside: nat, depth: nat)
    requires j <= |toks| && depth >= 1 && DefaultEnd(toks, j, inside) < |toks|
    ensures BalanceEnd(toks, j, inside + depth) == BalanceEnd(toks, DefaultEnd(toks, j, inside), depth)
    decreases |toks| - j
  {
    if DefaultEnd(toks, j, inside) == j {
      DefaultEndSound(toks, j, inside);
    } else {
      var l := toks[j].lexeme;
      var deeper := if IsOpener(l) then inside + 1 else if IsCloser(l) then inside - 1 else inside;
      DefaultBalances(toks, j + 1, deeper, depth);
    }
  }

  /** An item without brackets of its own keeps the count. */
  lemma {:induction false} TakeBalances(toks: seq<Token>, i: nat, f: Frame, depth: nat)
    requires i < |toks| && depth >= 1 && Next(toks, i, f).Take? && Next(toks, i, f).m < |toks|
    ensures BalanceEnd(toks, i, depth) == BalanceEnd(toks, Next(toks, i, f).m, depth)
  {
    if toks[i].lexeme.Assign? { DefaultBalances(toks, i + 1, 0, depth); }
  }

  /** The rest of an accepted frame, up to and including its closer, takes the count down by one. */
  lemma {:induction false} FrameBalances(toks: seq<Token>, i: nat, f: Frame, depth: nat)
    requires i <= |toks| && !f.kind.Top? && ParseItems(toks, i, f).Accept?
    ensures var n := ParseItems(toks, i, f).next;
            BalanceEnd(toks, i, depth + 1) == if depth == 0 then Some(n) else BalanceEnd(toks, n, depth)
    decreases |toks| - i
  {
    match Next(toks, i, f) {
      case Stuck =>
      case Close =>
      case Take(item, m, g) =>
        FrameBalances(toks, m, g, depth);
        TakeBalances(toks, i, f, depth + 1);
      case Open(kind) =>
        ParseOpen(toks, i, f);
        var inner := ParseItems(toks, i + 1, Fresh(kind));
        FrameBalances(toks, i + 1, Fresh(kind), depth + 1);
        FrameBalances(toks, inner.next, Completed(f), depth);
    }
  }

  /** An accepted binding that starts with a bracket is one pattern exactly when its first bracket, counting
      brackets of every kind, closes on its last token; otherwise something follows the pattern, which the
      walk does not give up over. */
  lemma {:induction false} OnePatternIff(toks: seq<Token>)
    requires toks != [] && (toks[0].lexeme.LBrack? || toks[0].lexeme.LBrace?)
    requires ParseItems(toks, 0, TOP).Accept?
    ensures var items := ParseItems(toks, 0, TOP).items;
            items.Cons? && items.head.Nested? && (items.tail.Nil? <==> BalanceEnd(toks, 1, 1) == Some(|toks|))
  {
    ParseOpen(toks, 0, TOP);
    var kind := KindOf(toks[0].lexeme);
    var inner := ParseItems(toks, 1, Fresh(kind));
    FrameBalances(toks, 1, Fresh(kind), 0);
    assert Completed(TOP) == TOP;
    RestIsNil(toks, inner.next);
  }

  lemma {:induction false} RestIsNil(toks: seq<Token>, i: nat)
    requires i <= |toks| && ParseItems(toks, i, TOP).Accept?
    ensures ParseItems(toks, i, TOP).items.Nil? <==> i == |toks|
  {
  }
}
