/** The three texts of a body side by side: its code, its code without substitutions, and the masked text. */
module BodyTexts {
  import opened Bytes
  import ML = MaskLiterals
  import opened ForHeads
  import opened BodyLexing
  import opened TextOverlay

  function RegexBytes(body: string, regex: nat -> bool): nat -> bool {
    (k: nat) => k < |body| && InRegex(body, regex, k)
  }

  function TemplateBytes(body: string, regex: nat -> bool): nat -> bool {
    (k: nat) => k < |body| && InTemplate(body, regex, k)
  }

  // ---------------------------------------------------------------- template literals

  lemma {:induction false} StepIntoTemplate(regex: bool, ends: bool, st: State, c: char, next: char, d: char)
    requires !TemplateByte(st, c) && TemplateByte(Step(regex, ends, st, c, next), d)
    ensures c == '`' && Kept(st.zone, c, next) && !Substituted(st)
  {
  }

  lemma {:induction false} StepOutOfTemplate(regex: bool, ends: bool, st: State, c: char, next: char, d: char)
    requires TemplateByte(st, c) && !TemplateByte(Step(regex, ends, st, c, next), d)
    ensures var t := Step(regex, ends, st, c, next); d == '`' && t.zone == Quoted('`') && !Substituted(t)
  {
  }

  lemma {:induction false} EnterTemplate(body: string, regex: nat -> bool, k: nat)
    requires k + 1 < |body| && !InTemplate(body, regex, k) && InTemplate(body, regex, k + 1)
    ensures BareCode(body, regex)[k] == '`'
  {
    StateNext(body, regex, k);
    var st := StateAt(body, regex, k);
    StepIntoTemplate(regex(k), LineEnds(body, k), st, body[k], BodyLexing.Behind(body, k), body[k + 1]);
  }

  lemma {:induction false} QuoteShown(body: string, regex: nat -> bool, k: nat)
    requires k < |body| && body[k] == '`'
    requires StateAt(body, regex, k).zone == Quoted('`') && !InSubstitution(body, regex, k)
    ensures BareCode(body, regex)[k] == '`'
  {
  }

  lemma {:induction false} LeaveTemplate(body: string, regex: nat -> bool, k: nat)
    requires k + 1 < |body| && InTemplate(body, regex, k) && !InTemplate(body, regex, k + 1)
    ensures BareCode(body, regex)[k + 1] == '`'
  {
    StateNext(body, regex, k);
    var st := StateAt(body, regex, k);
    StepOutOfTemplate(regex(k), LineEnds(body, k), st, body[k], BodyLexing.Behind(body, k), body[k + 1]);
    QuoteShown(body, regex, k + 1);
  }

  lemma {:induction false} TemplateBorder(body: string, regex: nat -> bool, k: nat)
    requires k + 1 < |body|
    ensures Border(BareCode(body, regex), CodeOf(body, regex), TemplateBytes(body, regex), k)
  {
    if !InTemplate(body, regex, k) && InTemplate(body, regex, k + 1) { EnterTemplate(body, regex, k); }
    if InTemplate(body, regex, k) && !InTemplate(body, regex, k + 1) { LeaveTemplate(body, regex, k); }
  }

  lemma {:induction false} BareInTemplate(body: string, regex: nat -> bool, k: nat)
    requires k < |body|
    ensures if InTemplate(body, regex, k) then IsBlank(BareCode(body, regex)[k])
            else BareCode(body, regex)[k] == CodeOf(body, regex)[k]
  {
  }

  /** The code shows what its bare form blanks in template literals. */
  lemma {:induction false} CodeOverlays(body: string, regex: nat -> bool)
    ensures Overlay(BareCode(body, regex), CodeOf(body, regex), TemplateBytes(body, regex))
  {
    forall k: nat | k < |body|
      ensures if InTemplate(body, regex, k) then IsBlank(BareCode(body, regex)[k])
              else BareCode(body, regex)[k] == CodeOf(body, regex)[k]
    {
      BareInTemplate(body, regex, k);
    }
    forall k: nat | k + 1 < |body|
      ensures Border(BareCode(body, regex), CodeOf(body, regex), TemplateBytes(body, regex), k)
    {
      TemplateBorder(body, regex, k);
    }
  }

  // ---------------------------------------------------------------- regular expressions

  lemma {:induction false} StepIntoRegex(regex: bool, ends: bool, st: State, c: char, next: char, d: char)
    requires var t := Step(regex, ends, st, c, next); RegexByte(t.zone, d) && !Substituted(t)
    requires Substituted(st) || !RegexByte(st.zone, c)
    ensures c == '/' && Kept(st.zone, c, next) && !Substituted(st)
  {
  }

  lemma {:induction false} StepOutOfRegex(regex: bool, ends: bool, st: State, c: char, next: char, d: char)
    requires RegexByte(st.zone, c) && !Substituted(st)
    requires var t := Step(regex, ends, st, c, next); Substituted(t) || !RegexByte(t.zone, d)
    ensures !IsIdentPart(d) && (st.zone.Flags? || (c == '/' && st.zone == Regex(false)))
  {
  }

  lemma {:induction false} IntoFlags(regex: bool, ends: bool, st: State, c: char, next: char)
    requires var t := Step(regex, ends, st, c, next); t.zone.Flags? && !Substituted(t)
    ensures ((st.zone.Flags? && IsIdentPart(c)) || (c == '/' && st.zone == Regex(false))) && !Substituted(st)
  {
  }

  predicate IsFlag(body: string, regex: nat -> bool, k: nat)
    requires k < |body|
  {
    StateAt(body, regex, k).zone.Flags? && IsIdentPart(body[k]) && !InSubstitution(body, regex, k)
  }

  predicate IsClosing(body: string, regex: nat -> bool, k: nat)
    requires k < |body|
  {
    StateAt(body, regex, k).zone == Regex(false) && body[k] == '/' && !InSubstitution(body, regex, k)
  }

  lemma {:induction false} FlagByte(body: string, regex: nat -> bool, k: nat)
    requires Tame(body, regex) && k < |body| && IsFlag(body, regex, k)
    ensures IsBlank(BareCode(body, regex)[k]) && IsIdentPart(ML.Masked(body)[k])
  {
    TextsAgree(body, regex, k);
  }

  lemma {:induction false} ClosingSlash(body: string, regex: nat -> bool, k: nat)
    requires Tame(body, regex) && k < |body| && IsClosing(body, regex, k)
    ensures FlagsEnd(BareCode(body, regex), ML.Masked(body), k)
  {
    TextsAgree(body, regex, k);
    assert ClosesAt(BareCode(body, regex), ML.Masked(body), k, k);
  }

  lemma {:induction false} BeforeFlags(body: string, regex: nat -> bool, k: nat)
    requires k < |body| && IsFlag(body, regex, k)
    ensures k > 0 && (IsFlag(body, regex, k - 1) || IsClosing(body, regex, k - 1))
  {
    if k > 0 {
      StateNext(body, regex, k - 1);
      IntoFlags(regex(k - 1), LineEnds(body, k - 1), StateAt(body, regex, k - 1), body[k - 1],
                BodyLexing.Behind(body, k - 1));
    }
  }

  lemma {:induction false} OneFlagMore(code: string, text: string, k: nat)
    requires 0 < k < |code| == |text| && IsBlank(code[k]) && IsIdentPart(text[k]) && FlagsEnd(code, text, k - 1)
    ensures FlagsEnd(code, text, k)
  {
    var c: nat :| c <= k - 1 && ClosesAt(code, text, k - 1, c);
    assert ClosesAt(code, text, k, c);
  }

  lemma {:induction false} BackToSlash(code: string, text: string, flag: nat -> bool, closing: nat -> bool, k: nat)
    requires k < |code| == |text| && flag(k)
    requires forall i: nat {:trigger flag(i)} :: i <= k && flag(i) ==>
               IsBlank(code[i]) && IsIdentPart(text[i]) && i > 0 && (flag(i - 1) || closing(i - 1))
    requires forall i: nat {:trigger closing(i)} :: i <= k && closing(i) ==> FlagsEnd(code, text, i)
    ensures FlagsEnd(code, text, k)
    decreases k
  {
    if !closing(k - 1) { BackToSlash(code, text, flag, closing, k - 1); }
    OneFlagMore(code, text, k);
  }

  /** Flags go back to the slash that closed their regular expression. */
  lemma {:induction false} FlagsBack(body: string, regex: nat -> bool, k: nat)
    requires Tame(body, regex) && k < |body| && IsFlag(body, regex, k)
    ensures FlagsEnd(BareCode(body, regex), ML.Masked(body), k)
  {
    var flag := (i: nat) => i < |body| && IsFlag(body, regex, i);
    var closing := (i: nat) => i < |body| && IsClosing(body, regex, i);
    forall i: nat | i <= k && flag(i)
      ensures IsBlank(BareCode(body, regex)[i]) && IsIdentPart(ML.Masked(body)[i])
      ensures i > 0 && (flag(i - 1) || closing(i - 1))
    {
      FlagByte(body, regex, i);
      BeforeFlags(body, regex, i);
    }
    forall i: nat | i <= k && closing(i) ensures FlagsEnd(BareCode(body, regex), ML.Masked(body), i) {
      ClosingSlash(body, regex, i);
    }
    BackToSlash(BareCode(body, regex), ML.Masked(body), flag, closing, k);
  }

  lemma {:induction false} EnterHolds(body: string, regex: nat -> bool, k: nat)
    requires k + 1 < |body| && !InRegex(body, regex, k) && InRegex(body, regex, k + 1)
    ensures BareCode(body, regex)[k] == '/'
  {
    StateNext(body, regex, k);
    StepIntoRegex(regex(k), LineEnds(body, k), StateAt(body, regex, k), body[k], BodyLexing.Behind(body, k),
                  body[k + 1]);
  }

  lemma {:induction false} LeaveAt(body: string, regex: nat -> bool, k: nat)
    requires k + 1 < |body| && InRegex(body, regex, k) && !InRegex(body, regex, k + 1)
    ensures !IsIdentPart(body[k + 1]) && (IsFlag(body, regex, k) || IsClosing(body, regex, k))
  {
    StateNext(body, regex, k);
    StepOutOfRegex(regex(k), LineEnds(body, k), StateAt(body, regex, k), body[k], BodyLexing.Behind(body, k),
                   body[k + 1]);
  }

  lemma {:induction false} NoIdentShown(body: string, regex: nat -> bool, k: nat)
    requires k < |body| && !IsIdentPart(body[k])
    ensures !IsIdentPart(BareCode(body, regex)[k])
  {
  }

  lemma {:induction false} LeaveHolds(body: string, regex: nat -> bool, k: nat)
    requires Tame(body, regex)
    requires k + 1 < |body| && InRegex(body, regex, k) && !InRegex(body, regex, k + 1)
    ensures !IsIdentPart(BareCode(body, regex)[k + 1])
    ensures FlagsEnd(BareCode(body, regex), ML.Masked(body), k)
  {
    LeaveAt(body, regex, k);
    NoIdentShown(body, regex, k + 1);
    if IsFlag(body, regex, k) {
      FlagsBack(body, regex, k);
    } else {
      ClosingSlash(body, regex, k);
    }
  }

  lemma {:induction false} RegexBorder(body: string, regex: nat -> bool, k: nat)
    requires Tame(body, regex) && k + 1 < |body|
    ensures Border(BareCode(body, regex), ML.Masked(body), RegexBytes(body, regex), k)
  {
    if !InRegex(body, regex, k) && InRegex(body, regex, k + 1) { EnterHolds(body, regex, k); }
    if InRegex(body, regex, k) && !InRegex(body, regex, k + 1) { LeaveHolds(body, regex, k); }
  }

  lemma {:induction false} BareInRegex(body: string, regex: nat -> bool, k: nat)
    requires k < |body| && InRegex(body, regex, k)
    ensures IsBlank(BareCode(body, regex)[k]) || BareCode(body, regex)[k] == '/'
  {
  }

  /** The masked text shows what the bare code blanks in regular expressions. */
  lemma {:induction false} MaskedOverlays(body: string, regex: nat -> bool)
    requires Tame(body, regex)
    ensures Overlay(BareCode(body, regex), ML.Masked(body), RegexBytes(body, regex))
  {
    var code, masked, r := BareCode(body, regex), ML.Masked(body), RegexBytes(body, regex);
    forall k: nat | k < |code|
      ensures (!r(k) ==> code[k] == masked[k]) && (r(k) ==> IsBlank(code[k]) || IsWall(code[k]))
    {
      TextsAgree(body, regex, k);
      if InRegex(body, regex, k) { BareInRegex(body, regex, k); }
    }
    forall k: nat | k + 1 < |code| ensures Border(code, masked, r, k) {
      RegexBorder(body, regex, k);
    }
  }

  // ---------------------------------------------------------------- no heads in the stretches

  lemma {:induction false} SpellsIfShown(body: string, text: string, k: nat)
    requires |text| == |body| && forall i: nat :: i < |body| ==> text[i] == body[i] || text[i] == ML.Blank(body[i])
    requires WordAt(text, k, "for")
    ensures Spells(body, k, "for")
  {
    forall i: nat | i < 3 ensures body[k + i] == "for"[i] {
      assert text[k + i] == text[k..k + 3][i];
    }
  }

  lemma {:induction false} MaskedOrBlank(body: string, k: nat)
    requires k < |body|
    ensures ML.Masked(body)[k] == body[k] || ML.Masked(body)[k] == ML.Blank(body[k])
  {
    ML.MaskedByte(ML.Code, body, k);
  }

  lemma {:induction false} NoForInRegex(body: string, regex: nat -> bool)
    requires TameRegex(body, regex)
    ensures NoForIn(ML.Masked(body), RegexBytes(body, regex))
  {
    forall i: nat | i < |body| ensures ML.Masked(body)[i] == body[i] || ML.Masked(body)[i] == ML.Blank(body[i]) {
      MaskedOrBlank(body, i);
    }
    forall k: nat | k < |body| && InRegex(body, regex, k) ensures !WordAt(ML.Masked(body), k, "for") {
      if WordAt(ML.Masked(body), k, "for") { SpellsIfShown(body, ML.Masked(body), k); }
    }
  }

  lemma {:induction false} ForInTemplate(body: string, regex: nat -> bool, k: nat)
    requires k < |body| && InTemplate(body, regex, k) && WordAt(CodeOf(body, regex), k, "for")
    ensures InSubstitution(body, regex, k) && Spells(body, k, "for")
  {
    WordStarts(CodeOf(body, regex), k, "for");
    SpellsIfShown(body, CodeOf(body, regex), k);
  }

  lemma {:induction false} NoForInTemplate(body: string, regex: nat -> bool)
    requires TameSubstitution(body, regex)
    ensures NoForIn(CodeOf(body, regex), TemplateBytes(body, regex))
  {
    forall k: nat | k < |body| && InTemplate(body, regex, k) ensures !WordAt(CodeOf(body, regex), k, "for") {
      if WordAt(CodeOf(body, regex), k, "for") { ForInTemplate(body, regex, k); }
    }
  }
}
