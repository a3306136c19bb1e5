/** What the hoister of pkg/tc39/hoist.go declares, against what the body itself reads and binds: behind a guard
    that can be checked on the body, exactly which reads it overlooks and exactly which names it declares.
    Whether a slash starts a regular expression or divides is for the grammar to say, so it is given. */
module BodyCode {
  import opened Bytes
  import opened Types
  import ML = MaskLiterals
  import Id = Identifiers
  import opened BindingGrammar
  import opened PatternWalk
  import opened ForHeads
  import Hoist
  import opened TextOverlay
  import opened BodyLexing
  import opened BodyTexts
  import opened BodyNames
  import opened PlainHeads

  /** A read or a declaration of `name`: an identifier of the body that no for-head binds. */
  ghost predicate Reads(body: string, regex: nat -> bool, p: nat, name: string) {
    Uses(CodeOf(body, regex), p, name) && !IsTarget(CodeOf(body, regex), p)
  }

  ghost predicate Declares(body: string, name: string) {
    name in Hoist.HoistedNames(ML.Masked(body))
  }

  // ---------------------------------------------------------------- the guard

  /** The code is ASCII, without escapes, private names and the comments HTML has (annex B.1.1). */
  ghost predicate PlainCode(code: string) {
    NoEscapes(code) && (forall k :: 0 <= k < |code| ==> IsSpaceByte(code[k]) || '!' <= code[k] <= '~') &&
    (forall k: nat :: !Spells(code, k, "<!--")) &&
    forall k: nat :: Spells(code, k, "-->") ==> k > 0 && !IsSpaceByte(code[k - 1])
  }

  /** The search for the loop's word of a head that opens in `code` comes to byte `k`. */
  ghost predicate SearchedFrom(code: string, i: nat, open: nat, k: nat) {
    OpensHead(code, i, open) && k < |code| && Reaches(code, open + 1, k)
  }

  /** No regular expression and no substitution stands where the search for the keyword of a for-head goes. */
  ghost predicate ClearSearches(body: string, regex: nat -> bool) {
    forall i: nat, open: nat, k: nat :: SearchedFrom(BareCode(body, regex), i, open, k) ==>
      !InRegex(body, regex, k) && !InSubstitution(body, regex, k)
  }

  ghost predicate Guard(body: string, regex: nat -> bool) {
    Tame(body, regex) && ClearSearches(body, regex) && PlainCode(CodeOf(body, regex)) &&
    PlainDots(CodeOf(body, regex)) && forall i: nat :: PlainHead(CodeOf(body, regex), i)
  }

  // ---------------------------------------------------------------- the three texts

  lemma {:induction false} TextOfTemplate(body: string, regex: nat -> bool, k: nat)
    requires k < |body| && InTemplate(body, regex, k) && !InSubstitution(body, regex, k)
    ensures CodeOf(body, regex)[k] == BareCode(body, regex)[k] && IsBlank(CodeOf(body, regex)[k])
  {
  }

  lemma {:induction false} BareIsPlain(body: string, regex: nat -> bool)
    requires NoEscapes(CodeOf(body, regex))
    ensures NoEscapes(BareCode(body, regex))
  {
  }

  lemma {:induction false} ClearHeadFrom(code: string, text: string, r: nat -> bool, i: nat)
    requires |code| == |text| && NoEscapes(code)
    requires forall open: nat, k: nat :: SearchedFrom(code, i, open, k) ==> Same(code, text, r, k)
    ensures ClearHead(code, text, r, i)
  {
    if WordAt(code, i, "for") && ParenSpot(code, i) < |code| && code[ParenSpot(code, i)] == '(' {
      var open := ParenSpot(code, i);
      OpensIff(code, i, open);
      forall k: nat | k < |code| && Searching(code, open + 1, k) ensures Same(code, text, r, k) {
        ReachesIff(code, open + 1, k);
        assert SearchedFrom(code, i, open, k);
      }
    }
  }

  lemma {:induction false} ClearOfTemplates(body: string, regex: nat -> bool, i: nat)
    requires ClearSearches(body, regex) && NoEscapes(CodeOf(body, regex))
    ensures ClearHead(BareCode(body, regex), CodeOf(body, regex), TemplateBytes(body, regex), i)
  {
    var bare, code, r := BareCode(body, regex), CodeOf(body, regex), TemplateBytes(body, regex);
    BareIsPlain(body, regex);
    forall open: nat, k: nat | SearchedFrom(bare, i, open, k) ensures Same(bare, code, r, k) {
      if r(k) { TextOfTemplate(body, regex, k); }
    }
    ClearHeadFrom(bare, code, r, i);
  }

  lemma {:induction false} ClearOfRegexes(body: string, regex: nat -> bool, i: nat)
    requires ClearSearches(body, regex) && NoEscapes(CodeOf(body, regex))
    ensures ClearHead(BareCode(body, regex), ML.Masked(body), RegexBytes(body, regex), i)
  {
    var bare, masked, r := BareCode(body, regex), ML.Masked(body), RegexBytes(body, regex);
    BareIsPlain(body, regex);
    forall open: nat, k: nat | SearchedFrom(bare, i, open, k) ensures Same(bare, masked, r, k) {
    }
    ClearHeadFrom(bare, masked, r, i);
  }

  lemma {:induction false} CodeTargets(body: string, regex: nat -> bool)
    requires TameSubstitution(body, regex) && ClearSearches(body, regex) && NoEscapes(CodeOf(body, regex))
    ensures ForTargets(CodeOf(body, regex)) == ForTargets(BareCode(body, regex))
    ensures forall p :: p in ForTargets(BareCode(body, regex)) && p < |body| ==> !InTemplate(body, regex, p)
  {
    var bare, code, r := BareCode(body, regex), CodeOf(body, regex), TemplateBytes(body, regex);
    CodeOverlays(body, regex);
    NoForInTemplate(body, regex);
    forall i: nat | i < |bare| ensures ClearHead(bare, code, r, i) { ClearOfTemplates(body, regex, i); }
    AllTargetsSame(bare, code, r);
  }

  lemma {:induction false} MaskedTargets(body: string, regex: nat -> bool)
    requires Tame(body, regex) && ClearSearches(body, regex) && NoEscapes(CodeOf(body, regex))
    ensures ForTargets(ML.Masked(body)) == ForTargets(BareCode(body, regex))
    ensures forall p :: p in ForTargets(BareCode(body, regex)) && p < |body| ==> !InRegex(body, regex, p)
  {
    var bare, masked, r := BareCode(body, regex), ML.Masked(body), RegexBytes(body, regex);
    MaskedOverlays(body, regex);
    NoForInRegex(body, regex);
    forall i: nat | i < |bare| ensures ClearHead(bare, masked, r, i) { ClearOfRegexes(body, regex, i); }
    AllTargetsSame(bare, masked, r);
  }

  /** The masked text holds the identifiers of the code that stand in no substitution, and those that the
      letters of regular expressions spell. */
  lemma {:induction false} MentionsIff(body: string, regex: nat -> bool, p: nat, name: string)
    requires Tame(body, regex) && p < |body|
    ensures Mentions(CodeOf(body, regex), p, name) && !InSubstitution(body, regex, p) <==>
            Mentions(ML.Masked(body), p, name) && !InRegex(body, regex, p)
  {
    var bare, code, masked := BareCode(body, regex), CodeOf(body, regex), ML.Masked(body);
    CodeOverlays(body, regex);
    MaskedOverlays(body, regex);
    if InTemplate(body, regex, p) {
      NoMentionInRegex(bare, code, TemplateBytes(body, regex), p, name);
      if !InSubstitution(body, regex, p) { TextOfTemplate(body, regex, p); }
    } else {
      MentionsSame(bare, code, TemplateBytes(body, regex), p, name);
    }
    if InRegex(body, regex, p) {
      NoMentionInRegex(bare, masked, RegexBytes(body, regex), p, name);
    } else {
      MentionsSame(bare, masked, RegexBytes(body, regex), p, name);
    }
  }

  // ---------------------------------------------------------------- behind the guard

  lemma {:induction false} GuardedNames(body: string, regex: nat -> bool)
    requires Guard(body, regex)
    ensures NoEscapes(CodeOf(body, regex)) && PlainDots(CodeOf(body, regex))
    ensures forall i: nat :: PlainHead(CodeOf(body, regex), i)
  {
  }

  /** Behind the guard the hoister finds the targets of the body's for-heads, and nothing else; none is in a
      regular expression or a template literal. */
  lemma {:induction false} GuardedTargets(body: string, regex: nat -> bool, p: nat)
    requires Guard(body, regex)
    ensures p in ForTargets(ML.Masked(body)) <==> IsTarget(CodeOf(body, regex), p)
    ensures p in ForTargets(ML.Masked(body)) && p < |body| ==>
              !InRegex(body, regex, p) && !InTemplate(body, regex, p)
  {
    GuardedNames(body, regex);
    TargetsIff(CodeOf(body, regex), p);
    CodeTargets(body, regex);
    MaskedTargets(body, regex);
  }

  /** Behind the guard a declared name is read exactly in the substitutions that mention it. */
  lemma {:induction false} GuardedReads(body: string, regex: nat -> bool, name: string, p: nat)
    requires Guard(body, regex) && Declares(body, name)
    ensures Reads(body, regex, p, name) <==>
            p < |body| && InSubstitution(body, regex, p) && Uses(CodeOf(body, regex), p, name)
  {
    var code, masked := CodeOf(body, regex), ML.Masked(body);
    if p < |body| {
      GuardedNames(body, regex);
      UsesIff(code, p, name);
      GuardedTargets(body, regex, p);
      MentionsIff(body, regex, p, name);
      Hoist.HoistExact(body);
      assert Mentions(masked, p, name) ==> p in ForTargets(masked);
    }
  }

  /** So it is read nowhere exactly when no substitution mentions it. */
  lemma {:induction false} GuardedHoist(body: string, regex: nat -> bool, name: string)
    requires Guard(body, regex) && Declares(body, name)
    ensures (exists p: nat :: Reads(body, regex, p, name)) <==>
            exists p: nat :: p < |body| && InSubstitution(body, regex, p) && Uses(CodeOf(body, regex), p, name)
  {
    forall p: nat
      ensures Reads(body, regex, p, name) <==>
              p < |body| && InSubstitution(body, regex, p) && Uses(CodeOf(body, regex), p, name)
    {
      GuardedReads(body, regex, name, p);
    }
  }

  lemma {:induction false} NumeralSame(body: string, regex: nat -> bool, p: nat)
    requires Tame(body, regex) && p < |body| && !InRegex(body, regex, p) && !InTemplate(body, regex, p)
    requires IsIdentPart(BareCode(body, regex)[p])
    ensures InNumeral(CodeOf(body, regex), p) <==> InNumeral(ML.Masked(body), p)
  {
    CodeOverlays(body, regex);
    MaskedOverlays(body, regex);
    if p > 0 {
      BeforeSame(BareCode(body, regex), CodeOf(body, regex), TemplateBytes(body, regex), p);
      BeforeSame(BareCode(body, regex), ML.Masked(body), RegexBytes(body, regex), p);
    }
  }

  lemma {:induction false} MentionedInBare(body: string, regex: nat -> bool, p: nat, name: string)
    requires Tame(body, regex) && p < |body| && !InSubstitution(body, regex, p)
    requires Mentions(CodeOf(body, regex), p, name)
    ensures !InTemplate(body, regex, p) && IsIdentPart(BareCode(body, regex)[p])
  {
    if InTemplate(body, regex, p) { TextOfTemplate(body, regex, p); }
  }

  /** Behind the guard the masked text holds the identifiers of the body that stand in no substitution, and
      what letters of regular expressions and numerals spell. */
  lemma {:induction false} GuardedUses(body: string, regex: nat -> bool, p: nat, name: string)
    requires Guard(body, regex) && p < |body|
    ensures Uses(CodeOf(body, regex), p, name) && !InSubstitution(body, regex, p) <==>
            Mentions(ML.Masked(body), p, name) && !InRegex(body, regex, p) && !InNumeral(ML.Masked(body), p)
  {
    GuardedNames(body, regex);
    UsesIff(CodeOf(body, regex), p, name);
    MentionsIff(body, regex, p, name);
    if Mentions(CodeOf(body, regex), p, name) && !InSubstitution(body, regex, p) {
      MentionedInBare(body, regex, p, name);
      NumeralSame(body, regex, p);
    }
  }

  lemma {:induction false} TargetMentioned(code: string, p: nat)
    requires p in ForTargets(code)
    ensures p < |code| && Id.Occurs(code, p) && !InNumeral(code, p)
  {
    OffsetsAgree(code, p);
    Id.OccurrencesExact(code, 0, Id.OccurrenceAt(code, p));
    TargetNotInNumeral(code, p);
  }

  lemma {:induction false} TargetNotInNumeral(code: string, p: nat)
    requires p in ForTargets(code)
    ensures !InNumeral(code, p)
  {
    var regions := HeadsFrom(code, 0);
    TargetsInRegion(code, regions, p);
    var k: nat :| k < |regions| && p in RegionTargets(code, regions[k]);
    HeadsAreDisjoint(code, 0);
    DisjointAt(code, 0, regions, k);
    TargetStandsAlone(code, regions[k].start, regions[k].end, p);
  }

  /** Outside substitutions the name is bound in for-heads, at least once, and nothing else. */
  ghost predicate OnlyBound(body: string, regex: nat -> bool, name: string) {
    (exists p: nat :: IsTarget(CodeOf(body, regex), p) && Uses(CodeOf(body, regex), p, name)) &&
    forall p: nat :: p < |body| && !InSubstitution(body, regex, p) ==> !Reads(body, regex, p, name)
  }

  /** Letters of a regular expression or a numeral spell the name. */
  ghost predicate SpeltElsewhere(body: string, regex: nat -> bool, name: string) {
    exists p: nat :: p < |body| && Mentions(ML.Masked(body), p, name) &&
      (InRegex(body, regex, p) || InNumeral(ML.Masked(body), p))
  }

  lemma {:induction false} DeclaredIsBound(body: string, regex: nat -> bool, name: string)
    requires Guard(body, regex) && Declares(body, name)
    ensures OnlyBound(body, regex, name) && !SpeltElsewhere(body, regex, name)
  {
    var code, masked := CodeOf(body, regex), ML.Masked(body);
    Hoist.HoistExact(body);
    var t :| t in ForTargets(masked) && t <= |masked| && Id.OccurrenceAt(masked, t).name == name;
    TargetMentioned(masked, t);
    GuardedTargets(body, regex, t);
    GuardedUses(body, regex, t, name);
    assert IsTarget(code, t) && Uses(code, t, name);
    forall p: nat | p < |body| && !InSubstitution(body, regex, p) ensures !Reads(body, regex, p, name) {
      GuardedReads(body, regex, name, p);
    }
    NotSpeltElsewhere(body, regex, name);
  }

  lemma {:induction false} NotSpeltElsewhere(body: string, regex: nat -> bool, name: string)
    requires Guard(body, regex) && Hoist.OnlyTargets(ML.Masked(body), name)
    ensures !SpeltElsewhere(body, regex, name)
  {
    var masked := ML.Masked(body);
    forall p: nat | p < |body| && Mentions(masked, p, name)
      ensures !InRegex(body, regex, p) && !InNumeral(masked, p)
    {
      assert Id.Occurs(masked, p) && p in ForTargets(masked);
      GuardedTargets(body, regex, p);
      TargetMentioned(masked, p);
    }
  }

  lemma {:induction false} BoundIsDeclared(body: string, regex: nat -> bool, name: string)
    requires Guard(body, regex) && OnlyBound(body, regex, name) && !SpeltElsewhere(body, regex, name)
    ensures Declares(body, name)
  {
    var code, masked := CodeOf(body, regex), ML.Masked(body);
    var t: nat :| IsTarget(code, t) && Uses(code, t, name);
    GuardedTargets(body, regex, t);
    TargetMentioned(masked, t);
    GuardedUses(body, regex, t, name);
    assert t in ForTargets(masked) && Id.OccurrenceAt(masked, t).name == name;
    forall p: nat | Id.Occurs(masked, p) && Id.OccurrenceAt(masked, p).name == name ensures p in ForTargets(masked) {
      assert Mentions(masked, p, name);
      GuardedUses(body, regex, p, name);
      GuardedTargets(body, regex, p);
    }
    assert Hoist.OnlyTargets(masked, name);
    Hoist.HoistExact(body);
  }

  /** Exactness on the body itself: behind the guard a name is declared iff outside substitutions it is a
      for-head target of the body somewhere and nothing else anywhere, and no letters of a regular expression
      or a numeral spell it. */
  lemma {:induction false} GuardedExact(body: string, regex: nat -> bool, name: string)
    requires Guard(body, regex)
    ensures Declares(body, name) <==> OnlyBound(body, regex, name) && !SpeltElsewhere(body, regex, name)
  {
    if Declares(body, name) { DeclaredIsBound(body, regex, name); }
    if OnlyBound(body, regex, name) && !SpeltElsewhere(body, regex, name) { BoundIsDeclared(body, regex, name); }
  }
}
