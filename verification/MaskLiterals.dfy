/** Blanking of literals and comments (pkg/tc39/hoist.go, maskLiterals): the in-place, index-jumping
    scan equals a per-character automaton. */
module MaskLiterals {

  /** Where the scan is. `LineOpen` and `BlockOpen` are between the two bytes that open a comment,
      `BlockClose` between the two that close one; a template literal is a quote like the others. */
  datatype Mode = Code | LineOpen | Line | BlockOpen | Block | BlockClose | Quoted(q: char) | Escaped(q: char)

  function Blank(c: char): char {
    if c == '\n' then c else ' '
  }

  predicate IsQuote(c: char) {
    c == '\'' || c == '"' || c == '`'
  }

  predicate Ahead(s: string, c: char) {
    |s| > 1 && s[1] == c
  }

  /** What becomes of the first byte of `s`, read in `mode`: it is kept or blanked. */
  predicate Keeps(mode: Mode, s: string)
    requires s != ""
  {
    match mode
    case Code => !(s[0] == '/' && (Ahead(s, '/') || Ahead(s, '*')))
    case Line => s[0] == '\n'
    case Quoted(q) => s[0] == q
    case _ => false
  }

  function NextMode(mode: Mode, s: string): Mode
    requires s != ""
  {
    match mode
    case Code =>
      if s[0] == '/' && Ahead(s, '/') then LineOpen
      else if s[0] == '/' && Ahead(s, '*') then BlockOpen
      else if IsQuote(s[0]) then Quoted(s[0])
      else Code
    case LineOpen => Line
    case Line => if s[0] == '\n' then Code else Line
    case BlockOpen => Block
    case Block => if s[0] == '*' && Ahead(s, '/') then BlockClose else Block
    case BlockClose => Code
    case Quoted(q) => if s[0] == q then Code else if s[0] == '\\' then Escaped(q) else Quoted(q)
    case Escaped(q) => Quoted(q)
  }

  /** The automaton's output on `s` from `mode`. */
  function MaskFrom(mode: Mode, s: string): (m: string)
    ensures |m| == |s|
    decreases |s|
  {
    if s == "" then ""
    else [if Keeps(mode, s) then s[0] else Blank(s[0])] + MaskFrom(NextMode(mode, s), s[1..])
  }

  function Masked(src: string): string {
    MaskFrom(Code, src)
  }

  /** The mode in which byte `k` of `s` is read. */
  function ModeAt(mode: Mode, s: string, k: nat): Mode
    requires k <= |s|
    decreases k
  {
    if k == 0 then mode else ModeAt(NextMode(mode, s), s[1..], k - 1)
  }

  /** Byte by byte: kept as it is, or blanked with newlines preserved, as the automaton's mode says. */
  lemma {:induction false} MaskedByte(mode: Mode, s: string, k: nat)
    requires k < |s|
    ensures MaskFrom(mode, s)[k] == if Keeps(ModeAt(mode, s, k), s[k..]) then s[k] else Blank(s[k])
    ensures (MaskFrom(mode, s)[k] == '\n') == (s[k] == '\n')
    decreases k
  {
    if k == 0 {
    } else {
      assert s[k..] == s[1..][k - 1..];
      MaskedByte(NextMode(mode, s), s[1..], k - 1);
    }
  }

  /** Code without quotes and slashes is left alone. */
  lemma {:induction false} PlainCodeUnchanged(s: string)
    requires forall k :: 0 <= k < |s| ==> s[k] != '/' && !IsQuote(s[k])
    ensures Masked(s) == s
  {
    if s == "" {
    } else {
      PlainCodeUnchanged(s[1..]);
    }
  }

  /** The mode in which the masked text is read where the source is read in `mode`. */
  function Settled(mode: Mode): Mode {
    match mode
    case Quoted(q) => mode
    case Escaped(q) => Quoted(q)
    case _ => Code
  }

  predicate Sane(mode: Mode) {
    match mode
    case Quoted(q) => IsQuote(q)
    case Escaped(q) => IsQuote(q)
    case _ => true
  }

  lemma {:induction false} MaskAgain(mode: Mode, s: string)
    requires Sane(mode)
    requires mode.LineOpen? ==> s != "" && s[0] == '/'
    requires mode.BlockOpen? ==> s != "" && s[0] == '*'
    requires mode.BlockClose? ==> s != "" && s[0] == '/'
    ensures MaskFrom(Settled(mode), MaskFrom(mode, s)) == MaskFrom(mode, s)
    decreases |s|
  {
    if s == "" {
    } else {
      var m := MaskFrom(mode, s);
      var rest := MaskFrom(NextMode(mode, s), s[1..]);
      assert m[1..] == rest;
      MaskAgain(NextMode(mode, s), s[1..]);
      if |s| > 1 {
        assert rest[0] == s[1] || rest[0] == Blank(s[1]);
      }
      assert Settled(NextMode(mode, s)) == NextMode(Settled(mode), m);
    }
  }

  /** Masking a masked text changes nothing. */
  lemma {:induction false} MaskIdempotent(src: string)
    ensures Masked(Masked(src)) == Masked(src)
  {
    MaskAgain(Code, src);
  }

  lemma {:induction false} ModeStep(mode: Mode, s: string, k: nat)
    requires k < |s|
    ensures ModeAt(mode, s, k + 1) == NextMode(ModeAt(mode, s, k), s[k..])
    decreases k
  {
    if k == 0 {
    } else {
      assert s[k..] == s[1..][k - 1..];
      ModeStep(NextMode(mode, s), s[1..], k - 1);
    }
  }

  /** The mode in which the scan over `src` reads byte `k`. */
  function At(src: string, k: nat): Mode
    requires k <= |src|
  {
    ModeAt(Code, src, k)
  }

  /** Between `from` and `to` every byte is blanked. */
  ghost predicate Blanked(src: string, from: nat, to: nat)
    requires from <= to <= |src|
  {
    forall k :: from <= k < to ==> !Keeps(At(src, k), src[k..])
  }

  /** One byte of progress through a blanked stretch. */
  lemma {:induction false} Advance(src: string, k: nat)
    requires k < |src|
    ensures At(src, k + 1) == NextMode(At(src, k), src[k..])
    ensures src[k..][0] == src[k] && (Ahead(src[k..], '/') <==> k + 1 < |src| && src[k + 1] == '/') &&
            (Ahead(src[k..], '*') <==> k + 1 < |src| && src[k + 1] == '*')
    ensures Masked(src)[k] == if Keeps(At(src, k), src[k..]) then src[k] else Blank(src[k])
  {
    ModeStep(Code, src, k);
    MaskedByte(Code, src, k);
  }

  method BlankRange(b: array<char>, from: nat, end: nat)
    requires from <= b.Length
    modifies b
    ensures forall k :: 0 <= k < b.Length ==> b[k] == (if from <= k < end then Blank(old(b[k])) else old(b[k]))
  {
    var k := from;
    while k < end && k < b.Length
      invariant from <= k <= b.Length && (from < k ==> k <= end)
      invariant forall j :: 0 <= j < b.Length ==> b[j] == (if from <= j < k then Blank(old(b[j])) else old(b[j]))
      decreases end - k
    {
      if b[k] != '\n' { b[k] := ' '; }
      k := k + 1;
    }
  }

  method ScanLineComment(src: string, b: array<char>, i: nat) returns (j: nat)
    requires b.Length == |src| && forall k :: i <= k < |src| ==> b[k] == src[k]
    requires i + 1 < |src| && At(src, i) == Code && src[i] == '/' && src[i + 1] == '/'
    ensures i < j <= |src| && Blanked(src, i, j)
    ensures (j < |src| ==> src[j] == '\n' && At(src, j + 1) == Code && At(src, j) == Line)
  {
    Advance(src, i);
    Advance(src, i + 1);
    j := i + 2;
    while j < |src| && b[j] != '\n'
      invariant i + 2 <= j <= |src| && At(src, j) == Line && Blanked(src, i, j)
    {
      Advance(src, j);
      j := j + 1;
    }
    if j < |src| { Advance(src, j); }
  }

  method ScanBlockComment(src: string, b: array<char>, i: nat) returns (end: nat)
    requires b.Length == |src| && forall k :: i <= k < |src| ==> b[k] == src[k]
    requires i + 1 < |src| && At(src, i) == Code && src[i] == '/' && src[i + 1] == '*'
    ensures i < end <= |src| && Blanked(src, i, end) && (end < |src| ==> At(src, end) == Code)
  {
    Advance(src, i);
    Advance(src, i + 1);
    var j := i + 2;
    while j + 1 < |src| && !(b[j] == '*' && b[j + 1] == '/')
      invariant i + 2 <= j <= |src| && At(src, j) == Block && Blanked(src, i, j)
    {
      Advance(src, j);
      j := j + 1;
    }
    end := j + 2;
    if end > |src| { end := |src|; }
    if j < |src| { Advance(src, j); }
    if j + 1 < |src| { Advance(src, j + 1); }
  }

  method ScanQuoted(src: string, b: array<char>, i: nat) returns (j: nat)
    requires b.Length == |src| && forall k :: i <= k < |src| ==> b[k] == src[k]
    requires i < |src| && At(src, i) == Code && IsQuote(src[i])
    ensures i < j && Keeps(At(src, i), src[i..])
    ensures Blanked(src, i + 1, if j < |src| then j else |src|)
    ensures j < |src| ==> Keeps(At(src, j), src[j..]) && At(src, j + 1) == Code
  {
    var c := b[i];
    Advance(src, i);
    j := i + 1;
    while j < |src| && b[j] != c
      invariant i < j
      invariant Blanked(src, i + 1, if j < |src| then j else |src|)
      invariant j <= |src| ==> At(src, j) == Quoted(c)
      decreases |src| - j
    {
      Advance(src, j);
      if b[j] == '\\' {
        if j + 1 < |src| { Advance(src, j + 1); }
        j := j + 1;
      }
      j := j + 1;
    }
    if j < |src| { Advance(src, j); }
  }

  /** The scan over a byte buffer, blanking in place. */
  method MaskLiterals(src: string) returns (masked: string)
    ensures masked == Masked(src)
  {
    var n := |src|;
    var b := new char[n](k requires 0 <= k < n => src[k]);
    var i: nat := 0;
    while i < n
      invariant i < n ==> At(src, i) == Code || (At(src, i) == Line && src[i] == '\n')
      invariant forall k :: 0 <= k < n ==> b[k] == (if k < i then Masked(src)[k] else src[k])
      decreases n - i
    {
      var c := b[i];
      Advance(src, i);
      ghost var from := i;
      if c == '/' && i + 1 < n && b[i + 1] == '/' {
        var j := ScanLineComment(src, b, i);
        MaskedRange(src, i, j);
        BlankRange(b, i, j);
        i := j;
      } else if c == '/' && i + 1 < n && b[i + 1] == '*' {
        var end := ScanBlockComment(src, b, i);
        MaskedRange(src, i, end);
        BlankRange(b, i, end);
        i := end;
      } else if c == '\'' || c == '"' || c == '`' {
        var j := ScanQuoted(src, b, i);
        MaskedRange(src, i + 1, if j < n then j else n);
        if j < n { Advance(src, j); }
        BlankRange(b, i + 1, j);
        i := j + 1;
      } else {
        i := i + 1;
      }
    }
    masked := b[..];
  }

  lemma {:induction false} MaskedRange(src: string, from: nat, to: nat)
    requires from <= to <= |src| && Blanked(src, from, to)
    ensures forall k :: from <= k < to ==> Masked(src)[k] == Blank(src[k])
  {
    forall k | from <= k < to ensures Masked(src)[k] == Blank(src[k]) {
      Advance(src, k);
    }
  }
}
