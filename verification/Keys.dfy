/** The framed preimages behind the cache keys and fingerprints (pkg/tc39/cache.go, JobKey;
    pkg/tc39/tailcache.go, TailKey and RuntimeHash; pkg/tc39/harnessfp.go). SHA-256 is taken to be
    injective, so a key is identified with the bytes fed to the hash. */
module Keys {
  import opened Types

  const NUL := '\0'
  const ONE := 1 as char

  predicate NulFree(s: string) {
    NUL !in s
  }

  /** A hash being fed: `fed` is everything written so far. */
  class HashState {
    var fed: string

    constructor ()
      ensures fed == ""
    {
      fed := "";
    }

    method Write(b: string)
      modifies this
      ensures fed == old(fed) + b
    {
      fed := fed + b;
    }
  }

  // ---------------------------------------------------------------- keys

  /** NUL-terminated header fields, the optional async byte with its terminator, and the unframed tail. */
  function Framed(header: seq<string>, async: bool, tail: string): string {
    if header == [] then (if async then [ONE, NUL] else [NUL]) + tail
    else header[0] + ([NUL] + Framed(header[1..], async, tail))
  }

  /** The first NUL-terminated field of `s` and what follows it. */
  function SplitField(s: string): Option<(string, string)> {
    if s == "" then None
    else if s[0] == NUL then Some(("", s[1..]))
    else
      match SplitField(s[1..])
      case None => None
      case Some((field, rest)) => Some(([s[0]] + field, rest))
  }

  /** Reads `n` header fields, the async byte and the tail back. */
  function Decode(n: nat, s: string): Option<(seq<string>, bool, string)> {
    if n == 0 then
      if |s| > 0 && s[0] == NUL then Some(([], false, s[1..]))
      else if |s| > 1 && s[0] == ONE && s[1] == NUL then Some(([], true, s[2..]))
      else None
    else
      match SplitField(s)
      case None => None
      case Some((field, rest)) =>
        match Decode(n - 1, rest)
        case None => None
        case Some((header, async, tail)) => Some(([field] + header, async, tail))
  }

  lemma {:induction false} SplitsAtField(field: string, rest: string)
    requires NulFree(field)
    ensures SplitField(field + ([NUL] + rest)) == Some((field, rest))
  {
    var s := field + ([NUL] + rest);
    if field == "" {
      assert s[1..] == rest;
    } else {
      assert s[1..] == field[1..] + ([NUL] + rest);
      SplitsAtField(field[1..], rest);
      assert [field[0]] + field[1..] == field;
    }
  }

  ghost predicate NulFreeAll(fields: seq<string>) {
    forall k :: 0 <= k < |fields| ==> NulFree(fields[k])
  }

  /** Framing round trip: whatever the tail holds, the decoder recovers every part. */
  lemma {:induction false} DecodesFramed(header: seq<string>, async: bool, tail: string)
    requires NulFreeAll(header)
    ensures Decode(|header|, Framed(header, async, tail)) == Some((header, async, tail))
  {
    if header == [] {
      var s := Framed(header, async, tail);
      if async { assert s[2..] == tail; } else { assert s[1..] == tail; }
    } else {
      SplitsAtField(header[0], Framed(header[1..], async, tail));
      DecodesFramed(header[1..], async, tail);
      assert [header[0]] + header[1..] == header;
    }
  }

  function JobPreimage(j: Job, version: string): string {
    Framed([version, j.id, j.negType, j.negPhase], j.async, j.source)
  }

  function TailPreimage(goSrc: string, runtimeHash: string, j: Job): string {
    Framed([runtimeHash, j.negType, j.negPhase], j.async, goSrc)
  }

  /** One header field and its terminator. */
  method WriteField(h: HashState, field: string, ghost rest: seq<string>, ghost async: bool, ghost tail: string,
                    ghost whole: string)
    requires h.fed + Framed([field] + rest, async, tail) == whole
    modifies h
    ensures h.fed == old(h.fed) + (field + [NUL])
    ensures h.fed + Framed(rest, async, tail) == whole
  {
    h.Write(field);
    h.Write([NUL]);
    assert ([field] + rest)[1..] == rest;
  }

  /** The optional async byte, its terminator and the unframed tail. */
  method WriteTail(h: HashState, async: bool, tail: string, ghost whole: string)
    requires h.fed + Framed([], async, tail) == whole
    modifies h
    ensures h.fed == whole
  {
    if async {
      h.Write([ONE]);
    }
    h.Write([NUL]);
    h.Write(tail);
  }

  method JobKey(j: Job, version: string) returns (key: string)
    ensures key == JobPreimage(j, version)
  {
    var h := new HashState();
    ghost var key' := JobPreimage(j, version);
    WriteField(h, version, [j.id, j.negType, j.negPhase], j.async, j.source, key');
    WriteField(h, j.id, [j.negType, j.negPhase], j.async, j.source, key');
    WriteField(h, j.negType, [j.negPhase], j.async, j.source, key');
    WriteField(h, j.negPhase, [], j.async, j.source, key');
    WriteTail(h, j.async, j.source, key');
    key := h.fed;
  }

  method TailKey(goSrc: string, runtimeHash: string, j: Job) returns (key: string)
    ensures key == TailPreimage(goSrc, runtimeHash, j)
  {
    var h := new HashState();
    ghost var key' := TailPreimage(goSrc, runtimeHash, j);
    WriteField(h, runtimeHash, [j.negType, j.negPhase], j.async, goSrc, key');
    WriteField(h, j.negType, [j.negPhase], j.async, goSrc, key');
    WriteField(h, j.negPhase, [], j.async, goSrc, key');
    WriteTail(h, j.async, goSrc, key');
    key := h.fed;
  }

  lemma {:induction false} TailPreimageLong(goSrc: string, runtimeHash: string, j: Job)
    ensures TailPreimage(goSrc, runtimeHash, j) != ""
  {
  }

  predicate NulFreeJob(j: Job) {
    NulFree(j.id) && NulFree(j.negType) && NulFree(j.negPhase)
  }

  /** Two jobs share a key exactly when version, ID, expected error, phase, async flag and source agree.
      The name, the entry name and the staged modules are not part of a key. */
  lemma {:induction false} JobKeyInjective(j: Job, v: string, k: Job, w: string)
    requires NulFreeJob(j) && NulFreeJob(k) && NulFree(v) && NulFree(w)
    ensures JobPreimage(j, v) == JobPreimage(k, w) <==>
            v == w && j.id == k.id && j.negType == k.negType && j.negPhase == k.negPhase &&
            j.async == k.async && j.source == k.source
  {
    var a, b := [v, j.id, j.negType, j.negPhase], [w, k.id, k.negType, k.negPhase];
    DecodesFramed(a, j.async, j.source);
    DecodesFramed(b, k.async, k.source);
    assert a == b <==> a[0] == b[0] && a[1] == b[1] && a[2] == b[2] && a[3] == b[3];
  }

  lemma {:induction false} TailKeyInjective(g: string, r: string, j: Job, h: string, s: string, k: Job)
    requires NulFreeJob(j) && NulFreeJob(k) && NulFree(r) && NulFree(s)
    ensures TailPreimage(g, r, j) == TailPreimage(h, s, k) <==>
            r == s && j.negType == k.negType && j.negPhase == k.negPhase && j.async == k.async && g == h
  {
    var a, b := [r, j.negType, j.negPhase], [s, k.negType, k.negPhase];
    DecodesFramed(a, j.async, g);
    DecodesFramed(b, k.async, h);
    assert a == b <==> a[0] == b[0] && a[1] == b[1] && a[2] == b[2];
  }

  // ---------------------------------------------------------------- when a key tells all others apart

  /** NUL-terminated fields, one after the other. */
  function Fields(fields: seq<string>): string {
    if fields == [] then "" else fields[0] + ([NUL] + Fields(fields[1..]))
  }

  function Mark(async: bool): string {
    if async then [ONE, NUL] else [NUL]
  }

  function Nuls(s: string): nat {
    if s == "" then 0 else (if s[0] == NUL then 1 else 0) + Nuls(s[1..])
  }

  lemma {:induction false} NulsOfSum(s: string, t: string)
    ensures Nuls(s + t) == Nuls(s) + Nuls(t)
  {
    if s == "" {
      assert s + t == t;
    } else {
      assert (s + t)[1..] == s[1..] + t;
      NulsOfSum(s[1..], t);
    }
  }

  lemma {:induction false} NoNuls(s: string)
    ensures Nuls(s) == 0 <==> NulFree(s)
  {
    if s != "" {
      NoNuls(s[1..]);
      assert s == [s[0]] + s[1..];
    }
  }

  /** A field and its terminator. */
  lemma {:induction false} NulsOfField(field: string, rest: string)
    ensures Nuls(field + ([NUL] + rest)) == Nuls(field) + 1 + Nuls(rest)
  {
    NulsOfSum(field, [NUL] + rest);
    assert ([NUL] + rest)[1..] == rest;
  }

  /** Every field brings its terminator, and more NULs only if it holds some. */
  lemma {:induction false} NulsOfFields(fields: seq<string>)
    ensures Nuls(Fields(fields)) >= |fields|
    ensures Nuls(Fields(fields)) == |fields| <==> NulFreeAll(fields)
  {
    if fields != [] {
      NulsOfFields(fields[1..]);
      NulsOfField(fields[0], Fields(fields[1..]));
      NoNuls(fields[0]);
      assert NulFreeAll(fields) <==> NulFree(fields[0]) && NulFreeAll(fields[1..]) by {
        assert forall k :: 0 < k < |fields| ==> fields[k] == fields[1..][k - 1];
      }
    }
  }

  lemma {:induction false} FieldsOfSum(a: seq<string>, b: seq<string>)
    ensures Fields(a + b) == Fields(a) + Fields(b)
  {
    if a == [] {
      assert a + b == b;
    } else {
      assert (a + b)[1..] == a[1..] + b;
      FieldsOfSum(a[1..], b);
    }
  }

  lemma {:induction false} TwoFields(x: string, y: string)
    ensures Fields([x, y]) == x + [NUL] + y + [NUL]
  {
    assert [x, y][1..] == [y] && [y][1..] == [];
    assert Fields([y]) == y + [NUL];
  }

  lemma {:induction false} FieldsInjective(a: seq<string>, b: seq<string>)
    requires NulFreeAll(a) && NulFreeAll(b) && Fields(a) == Fields(b)
    ensures a == b
  {
    if a != [] && b != [] {
      SplitsAtField(a[0], Fields(a[1..]));
      SplitsAtField(b[0], Fields(b[1..]));
      FieldsInjective(a[1..], b[1..]);
      assert a == [a[0]] + a[1..] && b == [b[0]] + b[1..];
    }
  }

  /** As many fields with the same bytes are the same fields, if those of one list hold no NUL. */
  lemma {:induction false} SameFields(a: seq<string>, b: seq<string>)
    requires NulFreeAll(a) && |a| == |b| && Fields(a) == Fields(b)
    ensures a == b
  {
    NulsOfFields(a);
    NulsOfFields(b);
    FieldsInjective(a, b);
  }

  /** Two neighbouring fields can be cut anew at another NUL. */
  lemma {:induction false} CutAnew(fields: seq<string>, k: nat, x: string, y: string)
    requires k + 1 < |fields| && fields[k] + [NUL] + fields[k + 1] == x + [NUL] + y
    ensures Fields(fields[..k] + [x, y] + fields[k + 2..]) == Fields(fields)
  {
    var p, q := fields[..k], fields[k + 2..];
    TwoFields(x, y);
    TwoFields(fields[k], fields[k + 1]);
    assert fields == p + ([fields[k], fields[k + 1]] + q) && p + [x, y] + q == p + ([x, y] + q);
    FieldsOfSum(p, [x, y] + q);
    FieldsOfSum(p, [fields[k], fields[k + 1]] + q);
    FieldsOfSum([x, y], q);
    FieldsOfSum([fields[k], fields[k + 1]], q);
  }

  /** A NUL in one of several fields lets other fields have the same bytes. */
  lemma {:induction false} OtherFields(fields: seq<string>) returns (other: seq<string>)
    requires |fields| >= 2 && !NulFreeAll(fields)
    ensures |other| == |fields| && other != fields && Fields(other) == Fields(fields)
  {
    var k: nat :| k < |fields| && !NulFree(fields[k]);
    var i :| 0 <= i < |fields[k]| && fields[k][i] == NUL;
    var x, y := fields[k][..i], fields[k][i + 1..];
    assert fields[k] == x + [NUL] + y;
    if k + 1 < |fields| {
      var z := y + [NUL] + fields[k + 1];
      assert fields[k] + [NUL] + fields[k + 1] == x + [NUL] + z;
      other := fields[..k] + [x, z] + fields[k + 2..];
      assert |other[k]| < |fields[k]|;
      CutAnew(fields, k, x, z);
    } else {
      var z := fields[k - 1] + [NUL] + x;
      assert fields[k - 1] + [NUL] + fields[k] == z + [NUL] + y;
      other := fields[..k - 1] + [z, y] + fields[k + 1..];
      assert |other[k]| < |fields[k]|;
      CutAnew(fields, k - 1, z, y);
    }
  }

  /** No other list of as many fields has the same bytes. */
  ghost predicate AloneOfItsLength(fields: seq<string>) {
    forall other :: |other| == |fields| && Fields(other) == Fields(fields) ==> other == fields
  }

  /** Two fields or more are told from all other lists of as many exactly when none of them holds a NUL. */
  lemma {:induction false} AloneIff(fields: seq<string>)
    requires |fields| != 1
    ensures AloneOfItsLength(fields) <==> NulFreeAll(fields)
  {
    if NulFreeAll(fields) {
      forall other | |other| == |fields| && Fields(other) == Fields(fields) ensures other == fields {
        SameFields(fields, other);
      }
    } else {
      var other := OtherFields(fields);
    }
  }

  lemma {:induction false} FramedIs(header: seq<string>, async: bool, tail: string)
    ensures Framed(header, async, tail) == Fields(header) + (Mark(async) + tail)
  {
    if header != [] { FramedIs(header[1..], async, tail); }
  }

  /** Behind some NUL of `NUL tail` there could be the async byte's part and a tail. */
  predicate MarkInside(tail: string) {
    exists k :: 0 <= k <= |tail| && ([NUL] + tail)[k] == NUL && StartsWithMark(tail[k..])
  }

  predicate StartsWithMark(s: string) {
    (s != "" && s[0] == NUL) || (|s| > 1 && s[0] == ONE && s[1] == NUL)
  }

  /** No other header of as many fields, async flag and tail have the same bytes. */
  ghost predicate AloneAsKey(header: seq<string>, async: bool, tail: string) {
    forall h, a, t :: |h| == |header| && Framed(h, a, t) == Framed(header, async, tail) ==>
      h == header && a == async && t == tail
  }

  lemma {:induction false} EndsInNul(fields: seq<string>)
    requires fields != []
    ensures Fields(fields) != "" && Fields(fields)[|Fields(fields)| - 1] == NUL
  {
    if |fields| > 1 { EndsInNul(fields[1..]); }
  }

  lemma {:induction false} NoNulBehind(s: string, t: string)
    requires t != "" && t[|t| - 1] == NUL
    ensures Nuls(s + t) > Nuls(s)
  {
    NulsOfSum(s, t);
    NoNuls(t);
  }

  /** Fields that start the same bytes as NUL-free ones are as long at least. */
  lemma {:induction false} NoShorter(fields: seq<string>, other: seq<string>, rest: string, more: string)
    requires NulFreeAll(fields) && |fields| == |other| && fields != []
    requires Fields(other) + more == Fields(fields) + rest
    ensures |Fields(other)| >= |Fields(fields)|
  {
    var f, o := Fields(fields), Fields(other);
    if |o| < |f| {
      var missing := f[|o|..];
      assert f == o + missing by {
        assert f == (f + rest)[..|f|] && o == (o + more)[..|o|] == f[..|o|];
      }
      EndsInNul(fields);
      NoNulBehind(o, missing);
      NulsOfFields(fields);
      NulsOfFields(other);
    }
  }

  lemma {:induction false} MarkStarts(async: bool, tail: string)
    ensures StartsWithMark(Mark(async) + tail)
  {
  }

  lemma {:induction false} SplitLater(f: string, s: string, o: string, u: string)
    requires f + s == o + u && |o| > |f|
    ensures |o| - |f| <= |s| && s[|o| - |f| - 1] == o[|o| - 1] && s[|o| - |f|..] == u
  {
    var j := |o| - |f|;
    assert s[j - 1] == (f + s)[|o| - 1] == (o + u)[|o| - 1];
    assert s[j..] == (f + s)[|o|..] == (o + u)[|o|..];
  }

  lemma {:induction false} MarkBehind(async: bool, tail: string, j: nat)
    requires 0 < j <= |Mark(async) + tail| && (Mark(async) + tail)[j - 1] == NUL
    requires StartsWithMark((Mark(async) + tail)[j..])
    ensures MarkInside(tail)
  {
    var m := Mark(async);
    if j >= |m| {
      var k := j - |m|;
      assert (m + tail)[j..] == tail[k..];
      assert ([NUL] + tail)[k] == (m + tail)[j - 1];
    }
  }

  /** Longer fields end on a NUL of the mark or the tail, and a mark stands behind it. */
  lemma {:induction false} LongerShowsMark(f: string, async: bool, tail: string, o: string, a: bool, t: string)
    requires f + (Mark(async) + tail) == o + (Mark(a) + t) && |o| > |f| && o[|o| - 1] == NUL
    ensures MarkInside(tail)
  {
    SplitLater(f, Mark(async) + tail, o, Mark(a) + t);
    MarkStarts(a, t);
    MarkBehind(async, tail, |o| - |f|);
  }

  lemma {:induction false} MarkLengths(async: bool, tail: string, a: bool, t: string)
    requires Mark(async) + tail == Mark(a) + t
    ensures async == a && tail == t
  {
    var s := Mark(async) + tail;
    assert s[0] == (if async then ONE else NUL) && s[0] == (if a then ONE else NUL);
    assert tail == s[|Mark(async)|..] && t == s[|Mark(a)|..];
  }

  lemma {:induction false} NulFreeIsAlone(header: seq<string>, async: bool, tail: string)
    requires header != [] && NulFreeAll(header) && !MarkInside(tail)
    ensures AloneAsKey(header, async, tail)
  {
    forall h, a, t | |h| == |header| && Framed(h, a, t) == Framed(header, async, tail)
      ensures h == header && a == async && t == tail
    {
      FramedIs(header, async, tail);
      FramedIs(h, a, t);
      NoShorter(header, h, Mark(async) + tail, Mark(a) + t);
      EndsInNul(h);
      if |Fields(h)| > |Fields(header)| {
        LongerShowsMark(Fields(header), async, tail, Fields(h), a, t);
      }
      var s := Fields(header) + (Mark(async) + tail);
      assert s[..|Fields(header)|] == Fields(header) == Fields(h);
      assert s[|Fields(header)|..] == Mark(async) + tail == Mark(a) + t;
      SameFields(header, h);
      MarkLengths(async, tail, a, t);
    }
  }

  lemma {:induction false} LastField(before: seq<string>, last: string)
    ensures Fields(before + [last]) == Fields(before) + last + [NUL]
  {
    FieldsOfSum(before, [last]);
    assert [last][1..] == [];
  }

  lemma {:induction false} Regroup(p: string, f: string, taken: string, rest: string)
    ensures (p + (f + [NUL] + taken) + [NUL]) + rest == (p + f + [NUL]) + (taken + ([NUL] + rest))
  {
  }

  /** The last field can take in what stands before a later NUL. */
  lemma {:induction false} LastTakes(header: seq<string>, async: bool, tail: string, taken: string, a: bool, t: string)
    requires header != [] && Mark(async) + tail == taken + ([NUL] + (Mark(a) + t))
    ensures !AloneAsKey(header, async, tail)
  {
    var n := |header| - 1;
    var p, last := header[..n], header[n] + [NUL] + taken;
    assert header == p + [header[n]];
    LastField(p, header[n]);
    LastField(p, last);
    FramedIs(header, async, tail);
    FramedIs(p + [last], a, t);
    Regroup(Fields(p), header[n], taken, Mark(a) + t);
    assert |(p + [last])[n]| > |header[n]|;
  }

  lemma {:induction false} MarkOf(s: string) returns (a: bool, t: string)
    requires StartsWithMark(s)
    ensures s == Mark(a) + t
  {
    a := s[0] == ONE;
    t := s[|Mark(a)|..];
  }

  lemma {:induction false} CutAt(async: bool, tail: string, k: nat) returns (taken: string)
    requires k <= |tail| && ([NUL] + tail)[k] == NUL
    ensures Mark(async) + tail == taken + ([NUL] + tail[k..])
  {
    var s := [NUL] + tail;
    assert s == s[..k] + ([NUL] + tail[k..]);
    if async {
      taken := [ONE] + s[..k];
      assert Mark(async) + tail == [ONE] + s;
    } else {
      taken := s[..k];
    }
  }

  /** A mark inside the tail can pass for the real one. */
  lemma {:induction false} OtherTail(header: seq<string>, async: bool, tail: string)
    requires header != [] && MarkInside(tail)
    ensures !AloneAsKey(header, async, tail)
  {
    var k: nat :| k <= |tail| && ([NUL] + tail)[k] == NUL && StartsWithMark(tail[k..]);
    var a, t := MarkOf(tail[k..]);
    var taken := CutAt(async, tail, k);
    LastTakes(header, async, tail, taken, a, t);
  }

  /** Framed bytes are told from all others exactly when no header field holds a NUL and the tail holds
      nothing that could pass for the part of the async byte. */
  lemma {:induction false} AloneAsKeyIff(header: seq<string>, async: bool, tail: string)
    requires |header| >= 2
    ensures AloneAsKey(header, async, tail) <==> NulFreeAll(header) && !MarkInside(tail)
  {
    if !NulFreeAll(header) {
      var h := OtherFields(header);
      FramedIs(header, async, tail);
      FramedIs(h, async, tail);
    } else if MarkInside(tail) {
      OtherTail(header, async, tail);
    } else {
      NulFreeIsAlone(header, async, tail);
    }
  }

  function HeaderOf(j: Job, version: string): (header: seq<string>)
    ensures |header| == 4
  {
    [version, j.id, j.negType, j.negPhase]
  }

  function TailHeaderOf(runtimeHash: string, j: Job): (header: seq<string>)
    ensures |header| == 3
  {
    [runtimeHash, j.negType, j.negPhase]
  }

  ghost predicate SameJob(j: Job, v: string, k: Job, w: string) {
    HeaderOf(j, v) == HeaderOf(k, w) && j.async == k.async && j.source == k.source
  }

  lemma {:induction false} JobOf(header: seq<string>, async: bool, source: string) returns (j: Job, v: string)
    requires |header| == 4
    ensures HeaderOf(j, v) == header && j.async == async && j.source == source
    ensures JobPreimage(j, v) == Framed(header, async, source)
  {
    j, v := Job(header[1], "", source, "", [], async, header[2], header[3]), header[0];
    assert HeaderOf(j, v) == header;
  }

  /** A job's key is that of no other job or version, exactly when version, ID, error type and phase hold no
      NUL and the source holds nothing that could pass for the part of the async byte. */
  lemma {:induction false} JobKeyAloneIff(j: Job, v: string)
    ensures (forall k, w :: JobPreimage(k, w) == JobPreimage(j, v) ==> SameJob(j, v, k, w)) <==>
            NulFreeAll(HeaderOf(j, v)) && !MarkInside(j.source)
  {
    var header := HeaderOf(j, v);
    AloneAsKeyIff(header, j.async, j.source);
    if AloneAsKey(header, j.async, j.source) {
      forall k, w | JobPreimage(k, w) == JobPreimage(j, v) ensures SameJob(j, v, k, w) {
        assert JobPreimage(k, w) == Framed(HeaderOf(k, w), k.async, k.source);
      }
    } else {
      var h, a, t :| |h| == 4 && Framed(h, a, t) == Framed(header, j.async, j.source) &&
        !(h == header && a == j.async && t == j.source);
      var k, w := JobOf(h, a, t);
      assert JobPreimage(k, w) == JobPreimage(j, v) && !SameJob(j, v, k, w);
    }
  }

  lemma {:induction false} SameRestIff(header: seq<string>, other: seq<string>, async: bool, tail: string)
    ensures Framed(header, async, tail) == Framed(other, async, tail) <==> Fields(header) == Fields(other)
  {
    FramedIs(header, async, tail);
    FramedIs(other, async, tail);
    var rest := Mark(async) + tail;
    if Fields(header) + rest == Fields(other) + rest {
      assert Fields(header) == (Fields(header) + rest)[..|Fields(header)|];
      assert Fields(other) == (Fields(other) + rest)[..|Fields(other)|];
    }
  }

  /** Among jobs with the same async flag and source a key belongs to one job and version, exactly when
      version, ID, error type and phase hold no NUL. */
  lemma {:induction false} JobKeySeparatesIff(j: Job, v: string)
    ensures (forall k: Job, w :: k.async == j.async && k.source == j.source && JobPreimage(k, w) == JobPreimage(j, v)
               ==> SameJob(j, v, k, w)) <==>
            NulFreeAll(HeaderOf(j, v))
  {
    var header := HeaderOf(j, v);
    AloneIff(header);
    if NulFreeAll(header) {
      forall k: Job, w | k.async == j.async && k.source == j.source && JobPreimage(k, w) == JobPreimage(j, v)
        ensures SameJob(j, v, k, w)
      {
        SameRestIff(HeaderOf(k, w), header, j.async, j.source);
      }
    } else {
      var h :| |h| == |header| && Fields(h) == Fields(header) && h != header;
      SameRestIff(h, header, j.async, j.source);
      var k, w := JobOf(h, j.async, j.source);
      assert !SameJob(j, v, k, w);
    }
  }

  ghost predicate SameTail(g: string, r: string, j: Job, h: string, s: string, k: Job) {
    TailHeaderOf(r, j) == TailHeaderOf(s, k) && j.async == k.async && g == h
  }

  /** A tail key is that of no other emitted Go, runtime, error type, phase and async flag, exactly when
      runtime hash, error type and phase hold no NUL and the Go nothing that could pass for the async part. */
  lemma {:induction false} TailKeyAloneIff(g: string, r: string, j: Job)
    ensures (forall h, s, k :: TailPreimage(h, s, k) == TailPreimage(g, r, j) ==> SameTail(g, r, j, h, s, k)) <==>
            NulFreeAll(TailHeaderOf(r, j)) && !MarkInside(g)
  {
    var header := TailHeaderOf(r, j);
    AloneAsKeyIff(header, j.async, g);
    if AloneAsKey(header, j.async, g) {
      forall h, s, k | TailPreimage(h, s, k) == TailPreimage(g, r, j) ensures SameTail(g, r, j, h, s, k) {
        assert TailPreimage(h, s, k) == Framed(TailHeaderOf(s, k), k.async, h);
      }
    } else {
      var h, a, t :| |h| == 3 && Framed(h, a, t) == Framed(header, j.async, g) &&
        !(h == header && a == j.async && t == g);
      var k := Job("", "", "", "", [], a, h[1], h[2]);
      assert TailHeaderOf(h[0], k) == h;
      assert TailPreimage(t, h[0], k) == TailPreimage(g, r, j) && !SameTail(g, r, j, t, h[0], k);
    }
  }

  /** Jobs that differ in expected error and phase alone can share a key. */
  lemma {:induction false} NulInTypeCollides(id: string, source: string, v: string)
    ensures var j := Job(id, "", source, "", [], false, [NUL], "");
            var k := Job(id, "", source, "", [], false, "", [NUL]);
            JobPreimage(j, v) == JobPreimage(k, v)
  {
    var a, b := [v, id, [NUL], ""], [v, id, "", [NUL]];
    assert a[2] + [NUL] + a[3] == "" + [NUL] + [NUL];
    CutAnew(a, 2, "", [NUL]);
    assert a[..2] + ["", [NUL]] + a[4..] == b;
    SameRestIff(a, b, false, source);
  }

  // ---------------------------------------------------------------- fingerprints

  datatype File = File(name: string, content: string)

  function Frames(files: seq<File>): string {
    if files == [] then "" else files[0].name + ([NUL] + (files[0].content + ([NUL] + Frames(files[1..]))))
  }

  ghost predicate NulFreeFiles(files: seq<File>) {
    forall k :: 0 <= k < |files| ==> NulFree(files[k].name) && NulFree(files[k].content)
  }

  /** Names and contents in turn. */
  function Flat(files: seq<File>): (fields: seq<string>)
    ensures |fields| == 2 * |files|
  {
    if files == [] then [] else [files[0].name, files[0].content] + Flat(files[1..])
  }

  function Paired(fields: seq<string>): (files: seq<File>)
    requires |fields| % 2 == 0
    ensures Flat(files) == fields
  {
    if fields == [] then [] else
      var rest := Paired(fields[2..]);
      var files := [File(fields[0], fields[1])] + rest;
      assert files[1..] == rest && fields == [fields[0], fields[1]] + fields[2..];
      files
  }

  lemma {:induction false} FramesAreFields(files: seq<File>)
    ensures Frames(files) == Fields(Flat(files))
    ensures NulFreeFiles(files) <==> NulFreeAll(Flat(files))
  {
    if files != [] {
      var f, rest := files[0], files[1..];
      FramesAreFields(rest);
      TwoFields(f.name, f.content);
      FieldsOfSum([f.name, f.content], Flat(rest));
      assert NulFreeFiles(files) <==> NulFree(f.name) && NulFree(f.content) && NulFreeFiles(rest) by {
        assert forall k :: 0 < k < |files| ==> files[k] == rest[k - 1];
      }
      NulFreeOfSum([f.name, f.content], Flat(rest));
    }
  }

  lemma {:induction false} NulFreeOfSum(a: seq<string>, b: seq<string>)
    ensures NulFreeAll(a + b) <==> NulFreeAll(a) && NulFreeAll(b)
  {
    assert forall k :: 0 <= k < |a| ==> (a + b)[k] == a[k];
    assert forall k :: 0 <= k < |b| ==> (a + b)[|a| + k] == b[k];
  }

  lemma {:induction false} FlatInjective(a: seq<File>, b: seq<File>)
    requires Flat(a) == Flat(b)
    ensures a == b
  {
    if a != [] {
      assert |b| > 0;
      assert Flat(a)[2..] == Flat(a[1..]) && Flat(b)[2..] == Flat(b[1..]);
      assert Flat(a)[0] == a[0].name && Flat(a)[1] == a[0].content;
      assert Flat(b)[0] == b[0].name && Flat(b)[1] == b[0].content;
      FlatInjective(a[1..], b[1..]);
      assert a == [a[0]] + a[1..] && b == [b[0]] + b[1..];
    }
  }

  /** A sequence of name and content frames decodes uniquely: against NUL-free files, and against any as many. */
  lemma {:induction false} FramesInjective(a: seq<File>, b: seq<File>)
    requires NulFreeFiles(a) && Frames(a) == Frames(b)
    requires NulFreeFiles(b) || |a| == |b|
    ensures a == b
  {
    FramesAreFields(a);
    FramesAreFields(b);
    if NulFreeFiles(b) {
      FieldsInjective(Flat(a), Flat(b));
    } else {
      SameFields(Flat(a), Flat(b));
    }
    FlatInjective(a, b);
  }

  /** Files are told from all other lists of as many exactly when no name and no content holds a NUL. */
  lemma {:induction false} FilesOfANumberIff(a: seq<File>)
    ensures (forall b :: |b| == |a| && Frames(b) == Frames(a) ==> b == a) <==> NulFreeFiles(a)
  {
    FramesAreFields(a);
    if NulFreeFiles(a) {
      forall b | |b| == |a| && Frames(b) == Frames(a) ensures b == a {
        FramesInjective(a, b);
      }
    } else {
      var fields := OtherFields(Flat(a));
      var b := Paired(fields);
      FramesAreFields(b);
    }
  }

  /** And from all other lists exactly when there is at most one, without a NUL. */
  lemma {:induction false} FilesIff(a: seq<File>)
    ensures (forall b :: Frames(b) == Frames(a) ==> b == a) <==> NulFreeFiles(a) && |a| <= 1
  {
    FilesOfANumberIff(a);
    if |a| >= 2 {
      FilesMerge(a[0], a[1], a[2..]);
      assert a == [a[0], a[1]] + a[2..];
      var b := [File(a[0].name, a[0].content + [NUL] + a[1].name + [NUL] + a[1].content)] + a[2..];
      assert |b| != |a|;
    } else if NulFreeFiles(a) {
      forall b | Frames(b) == Frames(a) ensures b == a {
        FramesAreFields(a);
        FramesAreFields(b);
        NulsOfFields(Flat(a));
        NulsOfFields(Flat(b));
        FramesInjective(a, b);
      }
    }
  }

  /** Two files can pass for one. */
  lemma {:induction false} FilesMerge(f: File, g: File, rest: seq<File>)
    ensures Frames([File(f.name, f.content + [NUL] + g.name + [NUL] + g.content)] + rest) == Frames([f, g] + rest)
  {
    var one := File(f.name, f.content + [NUL] + g.name + [NUL] + g.content);
    assert ([one] + rest)[1..] == rest;
    assert ([f, g] + rest)[1..] == [g] + rest && ([g] + rest)[1..] == rest;
    assert Frames([g] + rest) == g.name + ([NUL] + (g.content + ([NUL] + Frames(rest))));
  }

  /** Content with NUL bytes can pass for two files. */
  lemma {:induction false} NulInContentCollides()
    ensures var a, b := [File("a", ['x', NUL, 'b', NUL, 'y'])], [File("a", "x"), File("b", "y")];
            a != b && Frames(a) == Frames(b)
  {
    var a, b := [File("a", ['x', NUL, 'b', NUL, 'y'])], [File("a", "x"), File("b", "y")];
    assert Frames(a[1..]) == "" && Frames(b[1..][1..]) == "";
    assert Frames(b[1..]) == ['b', NUL, 'y', NUL];
    assert Frames(a) == ['a', NUL, 'x', NUL, 'b', NUL, 'y', NUL];
  }

  lemma {:induction false} FramesConcat(a: seq<File>, b: seq<File>)
    ensures Frames(a + b) == Frames(a) + Frames(b)
  {
    if a == [] {
      assert a + b == b;
    } else {
      assert (a + b)[1..] == a[1..] + b;
      FramesConcat(a[1..], b);
    }
  }

  method FeedFiles(h: HashState, files: seq<File>)
    modifies h
    ensures h.fed == old(h.fed) + Frames(files)
  {
    var i := 0;
    while i < |files|
      invariant 0 <= i <= |files| && h.fed + Frames(files[i..]) == old(h.fed) + Frames(files)
    {
      assert files[i..][1..] == files[i + 1..];
      h.Write(files[i].name);
      h.Write([NUL]);
      h.Write(files[i].content);
      h.Write([NUL]);
      i := i + 1;
    }
  }

  function RuntimeFiles(files: seq<File>, goMod: string, goSum: string): seq<File> {
    files + [File("go.mod", goMod), File("go.sum", goSum)]
  }

  /** The fingerprint of the linked runtime: its files in path order, then go.mod and go.sum. */
  method RuntimePreimage(files: seq<File>, goMod: string, goSum: string) returns (pre: string)
    ensures pre == Frames(files + [File("go.mod", goMod), File("go.sum", goSum)])
  {
    var h := new HashState();
    FeedFiles(h, files);
    FramesConcat(files, [File("go.mod", goMod), File("go.sum", goSum)]);
    FeedFiles(h, [File("go.mod", goMod), File("go.sum", goSum)]);
    pre := h.fed;
  }

  /** Equal runtime preimages come from the same files, the same go.mod and the same go.sum, if one side
      holds no NUL, and the other holds none either or has as many files. */
  lemma {:induction false} RuntimeInjective(a: seq<File>, modA: string, sumA: string,
                                            b: seq<File>, modB: string, sumB: string)
    requires NulFreeFiles(RuntimeFiles(a, modA, sumA))
    requires NulFreeFiles(RuntimeFiles(b, modB, sumB)) || |a| == |b|
    requires Frames(RuntimeFiles(a, modA, sumA)) == Frames(RuntimeFiles(b, modB, sumB))
    ensures a == b && modA == modB && sumA == sumB
  {
    var x, y := RuntimeFiles(a, modA, sumA), RuntimeFiles(b, modB, sumB);
    FramesInjective(x, y);
    assert x[..|x| - 2] == a && y[..|y| - 2] == b;
    assert x[|x| - 2] == y[|y| - 2] && x[|x| - 1] == y[|y| - 1];
  }

  /** The harness fingerprint: the embedded Go files, then the ported prelude files. */
  method HarnessPreimage(goFiles: seq<File>, ports: seq<File>) returns (pre: string)
    ensures pre == Frames(goFiles + ports)
  {
    var h := new HashState();
    FeedFiles(h, goFiles);
    FeedFiles(h, ports);
    FramesConcat(goFiles, ports);
    pre := h.fed;
  }

  predicate HasSuffix(s: string, suffix: string) {
    |suffix| <= |s| && s[|s| - |suffix|..] == suffix
  }

  ghost predicate AllSuffix(files: seq<File>, suffix: string) {
    forall k :: 0 <= k < |files| ==> HasSuffix(files[k].name, suffix)
  }

  /** Nothing in the bytes marks where the Go files end and the ports begin; the extensions do. */
  lemma {:induction false} HarnessInjective(goA: seq<File>, portsA: seq<File>, goB: seq<File>, portsB: seq<File>)
    requires NulFreeFiles(goA + portsA)
    requires NulFreeFiles(goB + portsB) || |goA + portsA| == |goB + portsB|
    requires AllSuffix(goA, ".go") && AllSuffix(goB, ".go") && AllSuffix(portsA, ".ts") && AllSuffix(portsB, ".ts")
    requires Frames(goA + portsA) == Frames(goB + portsB)
    ensures goA == goB && portsA == portsB
  {
    var x, y := goA + portsA, goB + portsB;
    FramesInjective(x, y);
    if |goA| < |goB| {
      BothSuffixes(x[|goA|].name, y[|goA|].name);
    } else if |goB| < |goA| {
      BothSuffixes(y[|goB|].name, x[|goB|].name);
    }
    assert goA == x[..|goA|] && portsA == x[|goA|..] && goB == y[..|goB|] && portsB == y[|goB|..];
  }

  lemma {:induction false} BothSuffixes(ts: string, go: string)
    requires HasSuffix(ts, ".ts") && HasSuffix(go, ".go")
    ensures ts != go
  {
    assert ts[|ts| - 3..][2] == 's' && go[|go| - 3..][2] == 'o';
  }
}
