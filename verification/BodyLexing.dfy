/** A body as ECMA-262 lexes it (section 12), byte by byte, against the masked text the hoister works on
    (pkg/tc39/hoist.go, maskLiterals). Whether a slash starts a regular expression or divides is for the
    grammar to say, so it is given. */
module BodyLexing {
  import ML = MaskLiterals

  // ---------------------------------------------------------------- bytes

  predicate IsNameByte(c: char) {
    'a' <= c <= 'z' || 'A' <= c <= 'Z' || '0' <= c <= '9' || c == '_' || c == '$'
  }

  predicate IsNameStart(c: char) {
    IsNameByte(c) && !('0' <= c <= '9')
  }

  predicate IsSpaceByte(c: char) {
    c == ' ' || c == '\t' || c == '\n' || c == '\r'
  }

  predicate IsQuoteMark(c: char) {
    c == '"' || c == '\'' || c == '`'
  }

  function Blanked(c: char): char {
    if c == '\n' then '\n' else ' '
  }

  // ---------------------------------------------------------------- zones

  /** What a byte belongs to. `BraceOpen` is the brace of a substitution; `Flags` are the letters behind a
      regular expression, or the first byte behind them. */
  datatype Zone =
    | Plain
    | LineOpen | Line | BlockOpen | Block | BlockClose
    | Quoted(q: char) | Escaped(q: char) | BraceOpen
    | Regex(bracketed: bool) | RegexEscaped(bracketed: bool) | Flags

  /** `nest` counts the open braces within each substitution still open, the innermost last. */
  datatype State = State(zone: Zone, nest: seq<nat>)

  /** One byte of code, with the byte behind it. */
  function PlainStep(regex: bool, nest: seq<nat>, c: char, next: char): State {
    if c == '/' && next == '/' then State(LineOpen, nest)
    else if c == '/' && next == '*' then State(BlockOpen, nest)
    else if c == '/' && regex then State(Regex(false), nest)
    else if IsQuoteMark(c) then State(Quoted(c), nest)
    else if c == '{' && nest != [] then State(Plain, nest[..|nest| - 1] + [nest[|nest| - 1] + 1])
    else if c == '}' && nest != [] then
      if nest[|nest| - 1] == 0 then State(Quoted('`'), nest[..|nest| - 1])
      else State(Plain, nest[..|nest| - 1] + [nest[|nest| - 1] - 1])
    else State(Plain, nest)
  }

  /** One byte; `ends` says that a line terminator starts with it. */
  function Step(regex: bool, ends: bool, st: State, c: char, next: char): State {
    match st.zone
    case Plain => PlainStep(regex, st.nest, c, next)
    case LineOpen => st.(zone := Line)
    case Line => if ends then st.(zone := Plain) else st
    case BlockOpen => st.(zone := Block)
    case Block => if c == '*' && next == '/' then st.(zone := BlockClose) else st
    case BlockClose => st.(zone := Plain)
    case Quoted(q) =>
      if c == q then st.(zone := Plain)
      else if c == '\\' then st.(zone := Escaped(q))
      else if q == '`' && c == '$' && next == '{' then st.(zone := BraceOpen)
      else st
    case Escaped(q) => st.(zone := Quoted(q))
    case BraceOpen => State(Plain, st.nest + [0])
    case Regex(bracketed) =>
      if c == '\\' then st.(zone := RegexEscaped(bracketed))
      else if c == '[' then st.(zone := Regex(true))
      else if c == ']' then st.(zone := Regex(false))
      else if c == '/' && !bracketed then st.(zone := Flags)
      else st
    case RegexEscaped(bracketed) => st.(zone := Regex(bracketed))
    case Flags => if IsNameByte(c) then st else PlainStep(regex, st.nest, c, next)
  }

  function Behind(body: string, k: nat): char {
    if k + 1 < |body| then body[k + 1] else '\0'
  }

  /** A line terminator starts at byte `k` (section 12.3): LF, CR, or the three bytes of LS or PS. */
  predicate LineEnds(body: string, k: nat)
    requires k < |body|
  {
    body[k] == '\n' || body[k] == '\r' ||
    (k + 2 < |body| && body[k] == '\U{E2}' && body[k + 1] == '\U{80}' &&
     (body[k + 2] == '\U{A8}' || body[k + 2] == '\U{A9}'))
  }

  /** The state in which byte `k` is read; `regex` says of a slash in code whether it starts a regular
      expression. */
  function StateAt(body: string, regex: nat -> bool, k: nat): State
    requires k <= |body|
    decreases k
  {
    if k == 0 then State(Plain, [])
    else Step(regex(k - 1), LineEnds(body, k - 1), StateAt(body, regex, k - 1), body[k - 1], Behind(body, k - 1))
  }

  lemma {:induction false} StateNext(body: string, regex: nat -> bool, k: nat)
    requires k < |body|
    ensures StateAt(body, regex, k + 1) ==
            Step(regex(k), LineEnds(body, k), StateAt(body, regex, k), body[k], Behind(body, k))
  {
  }

  predicate IsCodeByte(c: char, next: char) {
    !(c == '/' && (next == '/' || next == '*'))
  }

  /** The byte is code, or delimits a literal. */
  predicate Kept(zone: Zone, c: char, next: char) {
    match zone
    case Plain => IsCodeByte(c, next)
    case Flags => !IsNameByte(c) && IsCodeByte(c, next)
    case Line => c == '\n'
    case Quoted(q) => c == q
    case BraceOpen => true
    case Regex(bracketed) => c == '/' && !bracketed
    case _ => false
  }

  /** The byte lies behind the first slash of a regular expression, up to its last flag. */
  predicate RegexByte(zone: Zone, c: char) {
    zone.Regex? || zone.RegexEscaped? || (zone.Flags? && IsNameByte(c))
  }

  /** The byte belongs to a substitution, its braces included. */
  predicate Substituted(st: State) {
    st.zone.BraceOpen? || st.nest != []
  }

  /** The byte stands between the backquotes of a template literal. */
  predicate TemplateByte(st: State, c: char) {
    (st.zone == Quoted('`') && c != '`') || st.zone == Escaped('`') || Substituted(st)
  }

  predicate InRegex(body: string, regex: nat -> bool, k: nat)
    requires k < |body|
  {
    RegexByte(StateAt(body, regex, k).zone, body[k]) && !Substituted(StateAt(body, regex, k))
  }

  predicate InSubstitution(body: string, regex: nat -> bool, k: nat)
    requires k < |body|
  {
    Substituted(StateAt(body, regex, k))
  }

  predicate InTemplate(body: string, regex: nat -> bool, k: nat)
    requires k < |body|
  {
    TemplateByte(StateAt(body, regex, k), body[k])
  }

  /** The body with everything but its code blanked, the code of substitutions included. */
  function CodeOf(body: string, regex: nat -> bool): (code: string)
    ensures |code| == |body|
  {
    seq(|body|, k requires 0 <= k < |body| =>
      if Kept(StateAt(body, regex, k).zone, body[k], Behind(body, k)) then body[k] else Blanked(body[k]))
  }

  /** The code without its substitutions. */
  function BareCode(body: string, regex: nat -> bool): (code: string)
    ensures |code| == |body|
  {
    seq(|body|, k requires 0 <= k < |body| =>
      if InSubstitution(body, regex, k) then Blanked(body[k]) else CodeOf(body, regex)[k])
  }

  // ---------------------------------------------------------------- what can be checked on the body

  predicate Spells(text: string, k: nat, w: string) {
    k + |w| <= |text| && text[k..k + |w|] == w
  }

  /** Substitutions hold no backquote, no backslash and no `for`. */
  ghost predicate TameSubstitution(body: string, regex: nat -> bool) {
    forall k: nat :: k < |body| && InSubstitution(body, regex, k) ==>
      body[k] != '`' && body[k] != '\\' && !Spells(body, k, "for")
  }

  /** Regular expressions hold no quote, no slash but the last and no `for`, and no slash or star follows
      the last. */
  ghost predicate TameRegex(body: string, regex: nat -> bool) {
    forall k: nat :: k < |body| && InRegex(body, regex, k) ==>
      !IsQuoteMark(body[k]) && !Spells(body, k, "for") &&
      (body[k] == '/' ==> StateAt(body, regex, k).zone == Regex(false) && IsCodeByte(body[k], Behind(body, k)))
  }

  /** Line comments end at LF. */
  ghost predicate TameComments(body: string, regex: nat -> bool) {
    forall k: nat :: k < |body| && StateAt(body, regex, k).zone.Line? && LineEnds(body, k) ==> body[k] == '\n'
  }

  ghost predicate Tame(body: string, regex: nat -> bool) {
    TameSubstitution(body, regex) && TameRegex(body, regex) && TameComments(body, regex)
  }

  // ---------------------------------------------------------------- the masked text

  /** The masking automaton's mode where the body is read in `zone`. */
  function ModeOf(zone: Zone): ML.Mode {
    match zone
    case LineOpen => ML.LineOpen
    case Line => ML.Line
    case BlockOpen => ML.BlockOpen
    case Block => ML.Block
    case BlockClose => ML.BlockClose
    case Quoted(q) => ML.Quoted(q)
    case Escaped(q) => ML.Escaped(q)
    case _ => ML.Code
  }

  /** The automaton stays in the template literal over a substitution, and takes a regular expression for
      code. Only one substitution is open at a time, and no template literal within. */
  ghost predicate Agree(st: State, mode: ML.Mode) {
    (st.nest != [] ==> |st.nest| == 1 && !(st.zone == Quoted('`') || st.zone == Escaped('`') || st.zone.BraceOpen?)) &&
    mode == if Substituted(st) then ML.Quoted('`') else ModeOf(st.zone)
  }

  /** What can be checked, of one byte. */
  predicate TameByte(st: State, ends: bool, c: char, next: char) {
    if Substituted(st) then c != '`' && c != '\\'
    else
      (st.zone.Line? && ends ==> c == '\n') &&
      (RegexByte(st.zone, c) ==> !IsQuoteMark(c) && (c == '/' ==> st.zone == Regex(false) && IsCodeByte(c, next)))
  }

  lemma {:induction false} TameAt(body: string, regex: nat -> bool, k: nat)
    requires Tame(body, regex) && k < |body|
    ensures TameByte(StateAt(body, regex, k), LineEnds(body, k), body[k], Behind(body, k))
  {
    assert InSubstitution(body, regex, k) ||
           RegexByte(StateAt(body, regex, k).zone, body[k]) == InRegex(body, regex, k);
  }

  predicate Shown(st: State, c: char, next: char) {
    !Substituted(st) && (Kept(st.zone, c, next) || RegexByte(st.zone, c))
  }

  lemma {:induction false} SubstitutedStep(regex: bool, ends: bool, st: State, c: char, next: char, s: string)
    requires s != "" && s[0] == c && Agree(st, ML.Quoted('`')) && Substituted(st) && TameByte(st, ends, c, next)
    ensures Agree(Step(regex, ends, st, c, next), ML.NextMode(ML.Quoted('`'), s)) && !ML.Keeps(ML.Quoted('`'), s)
  {
  }

  lemma {:induction false} OutsideStep(regex: bool, ends: bool, st: State, c: char, next: char, s: string)
    requires s != "" && s[0] == c && (next == '/' <==> ML.Ahead(s, '/')) && (next == '*' <==> ML.Ahead(s, '*'))
    requires Agree(st, ModeOf(st.zone)) && !Substituted(st) && TameByte(st, ends, c, next) && (c == '\n' ==> ends)
    ensures Agree(Step(regex, ends, st, c, next), ML.NextMode(ModeOf(st.zone), s))
    ensures ML.Keeps(ModeOf(st.zone), s) == Shown(st, c, next)
  {
  }

  lemma {:induction false} ModeStep(body: string, regex: nat -> bool, k: nat, st: State)
    requires k < |body| && Agree(st, ML.At(body, k)) && TameByte(st, LineEnds(body, k), body[k], Behind(body, k))
    ensures Agree(Step(regex(k), LineEnds(body, k), st, body[k], Behind(body, k)), ML.At(body, k + 1))
    ensures ML.Masked(body)[k] == if Shown(st, body[k], Behind(body, k)) then body[k] else Blanked(body[k])
  {
    ML.Advance(body, k);
    if Substituted(st) {
      SubstitutedStep(regex(k), LineEnds(body, k), st, body[k], Behind(body, k), body[k..]);
    } else {
      OutsideStep(regex(k), LineEnds(body, k), st, body[k], Behind(body, k), body[k..]);
    }
  }

  lemma {:induction false} ModesNext(body: string, regex: nat -> bool, k: nat)
    requires Tame(body, regex) && k < |body| && Agree(StateAt(body, regex, k), ML.At(body, k))
    ensures Agree(StateAt(body, regex, k + 1), ML.At(body, k + 1))
  {
    TameAt(body, regex, k);
    ModeStep(body, regex, k, StateAt(body, regex, k));
    StateNext(body, regex, k);
  }

  /** On a tame body the masking automaton reads every byte as ECMA-262 does, but for substitutions, which it
      takes for their template literal, and regular expressions, which it takes for code. */
  lemma {:induction false} ModesAgree(body: string, regex: nat -> bool, k: nat)
    requires Tame(body, regex) && k <= |body|
    ensures Agree(StateAt(body, regex, k), ML.At(body, k))
    decreases k
  {
    if k == 0 {
    } else {
      ModesAgree(body, regex, k - 1);
      ModesNext(body, regex, k - 1);
    }
  }

  /** So the masked text is the code without its substitutions, and the regular expressions as they stand. */
  lemma {:induction false} TextsAgree(body: string, regex: nat -> bool, k: nat)
    requires Tame(body, regex) && k < |body|
    ensures ML.Masked(body)[k] == if InRegex(body, regex, k) then body[k] else BareCode(body, regex)[k]
  {
    ModesAgree(body, regex, k);
    TameAt(body, regex, k);
    ModeStep(body, regex, k, StateAt(body, regex, k));
  }
}
