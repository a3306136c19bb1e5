/** Two texts of the same length that differ in stretches behind walls, one of them blank there: outside these
    they hold the same identifiers, the same for-heads and the same targets. */
module TextOverlay {
  import opened Bytes
  import opened Types
  import Id = Identifiers
  import opened ForHeads

  /** An identifier of the body: one of its code, not a member property. */
  ghost predicate Mentions(code: string, p: nat, name: string) {
    Id.Occurs(code, p) && Id.OccurrenceAt(code, p).name == name
  }

  /** The search for the keyword of a head whose binding starts at `start` is still going on at byte `k`. */
  ghost predicate Searching(code: string, start: nat, k: nat) {
    start <= k <= |code| && forall j :: start <= j < k ==> Depth(code, start, j) >= 1 && !Stops(code, start, j)
  }

  // ---------------------------------------------------------------- two texts that differ in regular expressions

  /** Byte `c` is a slash, and flags, blank in `code`, go from there to byte `k`. */
  ghost predicate ClosesAt(code: string, text: string, k: nat, c: nat)
    requires c <= k < |code| == |text|
  {
    code[c] == text[c] == '/' && forall j :: c < j <= k ==> IsIdentPart(text[j]) && IsBlank(code[j])
  }

  /** At byte `k` the flags end, and their regular expression closed before them. */
  ghost predicate FlagsEnd(code: string, text: string, k: nat)
    requires k < |code| == |text|
  {
    exists c: nat :: c <= k && ClosesAt(code, text, k, c)
  }

  predicate IsWall(c: char) {
    c == '/' || c == '`'
  }

  ghost predicate Border(code: string, text: string, r: nat -> bool, k: nat)
    requires k + 1 < |code| == |text|
  {
    (!r(k) && r(k + 1) ==> IsWall(code[k])) &&
    (r(k) && !r(k + 1) ==> code[k + 1] == '`' || (!IsIdentPart(code[k + 1]) && FlagsEnd(code, text, k)))
  }

  /** `code` blanks what `text` may show at the bytes of `r`, which are regular expressions behind their first
      slash, or what stands between the backquotes of template literals: only a slash or a backquote leads
      into one, and only the last slash or a flag, with no identifier byte behind, or a backquote out. */
  ghost predicate Overlay(code: string, text: string, r: nat -> bool) {
    |code| == |text| &&
    (forall k: nat {:trigger r(k)} :: k < |code| && !r(k) ==> code[k] == text[k]) &&
    (forall k: nat {:trigger r(k)} :: k < |code| && r(k) ==> IsBlank(code[k]) || IsWall(code[k])) &&
    (forall k: nat :: k + 1 < |code| ==> Border(code, text, r, k))
  }

  lemma {:induction false} RunIsCode(code: string, text: string, r: nat -> bool, i: nat, j: nat)
    requires Overlay(code, text, r) && i <= j <= |code| && (i < |code| ==> !r(i))
    requires (forall k :: i <= k < j ==> !IsWall(code[k])) || (forall k :: i <= k < j ==> !IsWall(text[k]))
    ensures forall k: nat :: i <= k <= j && k < |code| ==> !r(k) && code[k] == text[k]
    decreases j - i
  {
    if i == j {
    } else {
      RunIsCode(code, text, r, i, j - 1);
      assert j < |code| ==> Border(code, text, r, j - 1);
    }
  }

  lemma {:induction false} IdentEndSame(code: string, text: string, r: nat -> bool, p: nat)
    requires Overlay(code, text, r) && p <= |code| && (p < |code| ==> !r(p))
    ensures Id.IdentEnd(code, p) == Id.IdentEnd(text, p)
    ensures code[p..Id.IdentEnd(code, p)] == text[p..Id.IdentEnd(code, p)]
    decreases |code| - p
  {
    if p < |code| && IsIdentPart(code[p]) {
      RunIsCode(code, text, r, p, p + 1);
      IdentEndSame(code, text, r, p + 1);
      var e := Id.IdentEnd(code, p);
      assert code[p..e] == [code[p]] + code[p + 1..e] && text[p..e] == [text[p]] + text[p + 1..e];
    }
  }

  lemma {:induction false} InsideSame(code: string, text: string, r: nat -> bool, p: nat)
    requires Overlay(code, text, r) && p < |code| && !r(p) && IsIdentPart(code[p])
    ensures Id.InsideIdent(code, p) == Id.InsideIdent(text, p)
  {
    if p == 0 {
    } else {
      assert Border(code, text, r, p - 1);
      if IsIdentPart(code[p - 1]) { InsideSame(code, text, r, p - 1); }
    }
  }

  /** Behind flags the code goes back over blanks to a slash, the text text stands at a letter. */
  lemma {:induction false} FlagsAreNoMember(code: string, text: string, k: nat, c: nat)
    requires |code| == |text| && c <= k < |code| && ClosesAt(code, text, k, c)
    ensures !Id.IsMember(code, k + 1) && !Id.IsMember(text, k + 1)
    decreases k
  {
    if c == k {
    } else {
      FlagsAreNoMember(code, text, k - 1, c);
      assert IsIdentPart(text[k]);
    }
  }

  lemma {:induction false} MemberSame(code: string, text: string, r: nat -> bool, p: nat)
    requires Overlay(code, text, r) && p < |code| && !r(p) && code[p] != '`'
    ensures Id.IsMember(code, p) == Id.IsMember(text, p)
  {
    if p == 0 {
    } else {
      assert Border(code, text, r, p - 1);
      if r(p - 1) {
        var c: nat :| c <= p - 1 && ClosesAt(code, text, p - 1, c);
        FlagsAreNoMember(code, text, p - 1, c);
      } else if IsBlank(code[p - 1]) {
        MemberSame(code, text, r, p - 1);
      } else {
        DotSame(code, text, r, p);
      }
    }
  }

  lemma {:induction false} DotSame(code: string, text: string, r: nat -> bool, p: nat)
    requires Overlay(code, text, r) && 0 < p <= |code| && !r(p - 1) && !IsBlank(code[p - 1])
    ensures Id.IsMember(code, p) == Id.IsMember(text, p)
  {
    if p > 1 && r(p - 2) && code[p - 1] == '.' {
      assert Border(code, text, r, p - 2);
      var c: nat :| c <= p - 2 && ClosesAt(code, text, p - 2, c);
    }
  }

  /** Outside regular expressions both texts hold the same identifiers. */
  lemma {:induction false} MentionsSame(code: string, text: string, r: nat -> bool, p: nat, name: string)
    requires Overlay(code, text, r) && p < |code| && !r(p)
    ensures Mentions(code, p, name) <==> Mentions(text, p, name)
  {
    if IsIdentStart(code[p]) {
      InsideSame(code, text, r, p);
      MemberSame(code, text, r, p);
      IdentEndSame(code, text, r, p);
    }
  }

  /** The byte before an identifier is the same in both texts. */
  lemma {:induction false} BeforeSame(code: string, text: string, r: nat -> bool, p: nat)
    requires Overlay(code, text, r) && 0 < p < |code| && !r(p) && IsIdentPart(code[p])
    ensures code[p - 1] == text[p - 1]
  {
    assert Border(code, text, r, p - 1);
  }

  lemma {:induction false} NoMentionInRegex(code: string, text: string, r: nat -> bool, p: nat, name: string)
    requires Overlay(code, text, r) && p < |code| && r(p)
    ensures !Mentions(code, p, name)
  {
  }

  // ---------------------------------------------------------------- heads of both texts

  predicate OfLetters(w: string) {
    w != "" && forall k :: 0 <= k < |w| ==> IsIdentStart(w[k])
  }

  lemma {:induction false} WordThere(code: string, text: string, r: nat -> bool, a: string, b: string, i: nat,
                                     w: string)
    requires Overlay(code, text, r) && i < |code| && !r(i) && OfLetters(w)
    requires (a == code && b == text) || (a == text && b == code)
    requires WordAt(a, i, w)
    ensures WordAt(b, i, w) && (i + |w| < |code| ==> !r(i + |w|))
  {
    forall k | i <= k < i + |w| ensures IsIdentPart(a[k]) && a[k] != '/' {
      assert a[k] == a[i..i + |w|][k - i];
    }
    RunIsCode(code, text, r, i, i + |w|);
    assert b[i..i + |w|] == a[i..i + |w|];
    assert IsIdentPart(code[i]);
    if i > 0 { assert Border(code, text, r, i - 1); }
  }

  lemma {:induction false} WordSame(code: string, text: string, r: nat -> bool, i: nat, w: string)
    requires Overlay(code, text, r) && (i < |code| ==> !r(i)) && OfLetters(w)
    ensures WordAt(code, i, w) <==> WordAt(text, i, w)
    ensures WordAt(code, i, w) && i + |w| < |code| ==> !r(i + |w|)
  {
    if i < |code| {
      if WordAt(code, i, w) { WordThere(code, text, r, code, text, i, w); }
      if WordAt(text, i, w) { WordThere(code, text, r, text, code, i, w); }
    }
  }

  lemma {:induction false} BlanksSame(code: string, text: string, r: nat -> bool, i: nat)
    requires Overlay(code, text, r) && i <= |code| && (i < |code| ==> !r(i))
    ensures var j := AfterBlanks(code, i); j == AfterBlanks(text, i) && (j < |code| ==> !r(j))
    decreases |code| - i
  {
    if i < |code| && IsBlank(code[i]) {
      RunIsCode(code, text, r, i, i + 1);
      BlanksSame(code, text, r, i + 1);
    }
  }

  lemma {:induction false} ParenSame(code: string, text: string, r: nat -> bool, i: nat)
    requires Overlay(code, text, r) && i < |code| && !r(i) && WordAt(code, i, "for") && WordAt(text, i, "for")
    ensures var k := ParenSpot(code, i); k == ParenSpot(text, i) && (k < |code| ==> !r(k))
  {
    WordSame(code, text, r, i, "for");
    BlanksSame(code, text, r, i + 3);
    var j := AfterBlanks(code, i + 3);
    WordSame(code, text, r, j, "await");
    if WordAt(code, j, "await") { BlanksSame(code, text, r, j + 5); }
  }

  /** Byte `k` is the same in both texts, in a stretch or outside. */
  ghost predicate Same(code: string, text: string, r: nat -> bool, k: nat)
    requires k < |code| == |text|
  {
    r(k) ==> code[k] == text[k] && IsBlank(code[k])
  }

  lemma {:induction false} KeywordSame(code: string, text: string, r: nat -> bool, i: nat)
    requires Overlay(code, text, r) && i < |code| && Same(code, text, r, i)
    ensures KeywordAt(code, i) <==> KeywordAt(text, i)
  {
    if r(i) {
      NotAKeyword(code, i);
      NotAKeyword(text, i);
    } else {
      WordSame(code, text, r, i, "of");
      WordSame(code, text, r, i, "in");
    }
  }

  /** The search that starts at `start` meets no byte at which the texts differ. */
  ghost predicate ClearSearch(code: string, text: string, r: nat -> bool, start: nat)
    requires |code| == |text|
  {
    forall k: nat :: k < |code| && Searching(code, start, k) ==> Same(code, text, r, k)
  }

  lemma {:induction false} SearchGoesOn(code: string, start: nat, i: nat)
    requires Searching(code, start, i) && i < |code| && Depth(code, start, i) >= 1 && !Stops(code, start, i)
    ensures Searching(code, start, i + 1)
  {
  }

  lemma {:induction false} EndSame(code: string, text: string, r: nat -> bool, start: nat, i: nat)
    requires Overlay(code, text, r) && start <= i <= |code| && ClearSearch(code, text, r, start)
    requires Searching(code, start, i) && Depth(code, start, i) >= 1
    ensures EndFrom(code, i, Depth(code, start, i)) == EndFrom(text, i, Depth(code, start, i))
    decreases |code| - i
  {
    if i == |code| {
    } else {
      KeywordSame(code, text, r, i);
      EndFromStep(code, start, i);
      if !Stops(code, start, i) {
        SearchGoesOn(code, start, i);
        EndSame(code, text, r, start, i + 1);
      }
    }
  }

  lemma {:induction false} TokensSame(a: string, b: string, i: nat, end: nat)
    requires i <= end <= |a| == |b| && forall k :: i <= k < end ==> a[k] == b[k]
    ensures TokensFrom(a, i, end) == TokensFrom(b, i, end)
    decreases end - i
  {
    if i == end {
    } else if IsBlank(a[i]) {
      TokensSame(a, b, i + 1, end);
    } else {
      TokenSame(a, b, i, end);
      TokensSame(a, b, TokenAt(a, i, end).1, end);
    }
  }

  lemma {:induction false} RunEndSame(a: string, b: string, j: nat, end: nat)
    requires j <= end <= |a| == |b| && forall k :: j <= k < end ==> a[k] == b[k]
    ensures RunEnd(a, j, end) == RunEnd(b, j, end)
    decreases end - j
  {
    if j < end && IsIdentPart(a[j]) { RunEndSame(a, b, j + 1, end); }
  }

  lemma {:induction false} TokenSame(a: string, b: string, i: nat, end: nat)
    requires i < end <= |a| == |b| && forall k :: i <= k < end ==> a[k] == b[k]
    ensures TokenAt(a, i, end) == TokenAt(b, i, end)
  {
    RunEndSame(a, b, i + 1, end);
    var j := RunEnd(a, i + 1, end);
    assert a[i..j] == b[i..j];
  }

  /** What the guard says of the head at byte `i`. */
  ghost predicate ClearHead(code: string, text: string, r: nat -> bool, i: nat)
    requires |code| == |text|
  {
    WordAt(code, i, "for") && ParenSpot(code, i) < |code| && code[ParenSpot(code, i)] == '(' ==>
      ClearSearch(code, text, r, ParenSpot(code, i) + 1)
  }

  /** Nowhere in a regular expression does `for` stand. */
  ghost predicate NoForIn(text: string, r: nat -> bool) {
    forall k: nat :: k < |text| && r(k) ==> !WordAt(text, k, "for")
  }

  lemma {:induction false} HeadOfParts(a: string, b: string, i: nat)
    requires |a| == |b| && WordAt(a, i, "for") && WordAt(b, i, "for") && ParenSpot(a, i) == ParenSpot(b, i)
    requires var open := ParenSpot(a, i);
             open < |a| ==>
               a[open] == b[open] &&
               (a[open] == '(' ==> EndFrom(a, open + 1, 1) == EndFrom(b, open + 1, 1))
    ensures HeadAt(a, i) == HeadAt(b, i)
    ensures HeadAt(a, i).Some? ==>
              ParenSpot(a, i) < |a| && a[ParenSpot(a, i)] == '(' && HeadAt(a, i).value.start == ParenSpot(a, i) + 1
  {
    var open := ParenSpot(a, i);
    if open < |a| && a[open] == '(' {
      HeadAtParen(a, i, open);
      HeadAtParen(b, i, open);
    } else {
      NoParen(a, i);
      NoParen(b, i);
    }
  }

  lemma {:induction false} ForSame(code: string, text: string, r: nat -> bool, i: nat)
    requires Overlay(code, text, r) && ClearHead(code, text, r, i) && i < |code| && !r(i) && WordAt(code, i, "for")
    requires WordAt(text, i, "for")
    ensures HeadAt(code, i) == HeadAt(text, i)
    ensures HeadAt(code, i).Some? ==> ClearSearch(code, text, r, HeadAt(code, i).value.start)
  {
    ParenSame(code, text, r, i);
    var open := ParenSpot(code, i);
    if open < |code| && code[open] == '(' { EndSame(code, text, r, open + 1, open + 1); }
    HeadOfParts(code, text, i);
  }

  lemma {:induction false} NoHead(code: string, i: nat)
    requires !WordAt(code, i, "for")
    ensures HeadAt(code, i).None?
  {
  }

  lemma {:induction false} HeadSame(code: string, text: string, r: nat -> bool, i: nat)
    requires Overlay(code, text, r) && NoForIn(text, r) && i < |code| && ClearHead(code, text, r, i)
    ensures HeadAt(code, i) == HeadAt(text, i)
    ensures HeadAt(code, i).Some? ==> ClearSearch(code, text, r, HeadAt(code, i).value.start)
  {
    if r(i) {
      WordStarts(code, i, "for");
      assert !WordAt(code, i, "for") && !WordAt(text, i, "for");
    } else {
      WordSame(code, text, r, i, "for");
    }
    if WordAt(code, i, "for") {
      ForSame(code, text, r, i);
    } else {
      NoHead(code, i);
      NoHead(text, i);
    }
  }

  /** Both texts have the same heads, and each binding reads the same in both. */
  lemma {:induction false} HeadsSame(code: string, text: string, r: nat -> bool, i: nat)
    requires Overlay(code, text, r) && NoForIn(text, r) && i <= |code|
    requires forall k: nat :: k < |code| ==> ClearHead(code, text, r, k)
    ensures HeadsFrom(code, i) == HeadsFrom(text, i)
    ensures forall h :: h in HeadsFrom(code, i) ==> ClearSearch(code, text, r, h.start)
    decreases |code| - i
  {
    if i == |code| {
    } else {
      HeadSame(code, text, r, i);
      match HeadAt(code, i) {
        case None => HeadsSame(code, text, r, i + 1);
        case Some(h) => HeadsSame(code, text, r, h.end);
      }
    }
  }

  lemma {:induction false} RegionIsClear(code: string, text: string, r: nat -> bool, h: Region)
    requires Overlay(code, text, r) && GoodRegion(code, h) && ClearSearch(code, text, r, h.start)
    ensures RegionTargets(code, h) == RegionTargets(text, h)
    ensures forall p :: p in RegionTargets(code, h) && p < |code| ==> !r(p)
  {
    forall k: nat | h.start <= k < h.end ensures Same(code, text, r, k) && code[k] == text[k] {
      assert Searching(code, h.start, k);
    }
    TokensSame(code, text, h.start, h.end);
    forall p | p in RegionTargets(code, h) && p < |code| ensures !r(p) {
      RegionAgrees(code, h, p);
    }
  }

  lemma {:induction false} TargetsSame(code: string, text: string, r: nat -> bool, i: nat, regions: seq<Region>)
    requires Overlay(code, text, r) && Disjoint(code, i, regions)
    requires forall h :: h in regions ==> ClearSearch(code, text, r, h.start)
    ensures TargetsIn(code, regions) == TargetsIn(text, regions)
    ensures forall p :: p in TargetsIn(code, regions) && p < |code| ==> !r(p)
    decreases |regions|
  {
    if regions == [] {
    } else {
      RegionIsClear(code, text, r, regions[0]);
      TargetsSame(code, text, r, regions[0].end, regions[1..]);
    }
  }

  /** Both texts have the same targets, none of them in a stretch. */
  lemma {:induction false} AllTargetsSame(code: string, text: string, r: nat -> bool)
    requires Overlay(code, text, r) && NoForIn(text, r)
    requires forall k: nat :: k < |code| ==> ClearHead(code, text, r, k)
    ensures HeadsFrom(code, 0) == HeadsFrom(text, 0)
    ensures ForTargets(code) == ForTargets(text)
    ensures forall p :: p in ForTargets(code) && p < |code| ==> !r(p)
  {
    HeadsSame(code, text, r, 0);
    HeadsAreDisjoint(code, 0);
    TargetsSame(code, text, r, 0, HeadsFrom(code, 0));
  }
}
