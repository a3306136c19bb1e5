/** What a composed job is, told without the functions that compose it (pkg/tc39/compose.go, pkg/tc39/discover.go):
    the parts of its source and their order, its modes, and what its fields carry. */
module ComposedText {
  import opened Types
  import opened Compose
  import Hoist

  // ---------------------------------------------------------------- names

  /** The include names are the two of every test, the test's own, and the completion handler if it is async. */
  lemma {:induction false} NamesAskedFor(c: Case, n: string)
    ensures n in IncludeNames(c) <==>
            n == "sta.js" || n == "assert.js" || n in c.meta.includes ||
            (n == "doneprintHandle.js" && "async" in c.meta.flags)
  {
    DedupIs(AllNames(c), {});
    var two, last := ["sta.js", "assert.js"], if HasFlag(c.meta, "async") then ["doneprintHandle.js"] else [];
    assert AllNames(c) == two + c.meta.includes + last;
    assert n in two <==> n == "sta.js" || n == "assert.js";
  }

  /** Name `n` is first mentioned at index `k`. */
  ghost predicate FirstMention(names: seq<string>, n: string, k: nat) {
    k < |names| && names[k] == n && forall i :: 0 <= i < k ==> names[i] != n
  }

  lemma {:induction false} DedupFrom(names: seq<string>, k: nat, seen: set<string>, a: nat) returns (i: nat)
    requires k <= |names| && a < |Dedup(names[k..], seen)|
    requires forall n :: n in seen <==> n in names[..k]
    ensures k <= i && FirstMention(names, Dedup(names[k..], seen)[a], i)
    decreases |names| - k
  {
    var n := names[k];
    assert names[k..][0] == n && names[k..][1..] == names[k + 1..] && names[..k + 1] == names[..k] + [n];
    if n in seen {
      i := DedupFrom(names, k + 1, seen, a);
    } else if a > 0 {
      i := DedupFrom(names, k + 1, seen + {n}, a - 1);
    } else {
      i := k;
      forall j | 0 <= j < k ensures names[j] != n { assert names[j] in names[..k]; }
    }
  }

  /** They come in the order of their first mention. */
  lemma {:induction false} DedupInOrder(names: seq<string>, k: nat, seen: set<string>, a: nat, b: nat)
    requires k <= |names| && a < b < |Dedup(names[k..], seen)|
    requires forall n :: n in seen <==> n in names[..k]
    ensures exists i, j :: i < j && FirstMention(names, Dedup(names[k..], seen)[a], i) &&
              FirstMention(names, Dedup(names[k..], seen)[b], j)
    decreases |names| - k
  {
    var n := names[k];
    assert names[k..][0] == n && names[k..][1..] == names[k + 1..] && names[..k + 1] == names[..k] + [n];
    var rest := Dedup(names[k + 1..], seen + {n});
    assert n !in seen ==> Dedup(names[k..], seen) == [n] + rest;
    if n in seen {
      DedupInOrder(names, k + 1, seen, a, b);
    } else if a > 0 {
      DedupInOrder(names, k + 1, seen + {n}, a - 1, b - 1);
      assert Dedup(names[k..], seen)[a] == rest[a - 1] && Dedup(names[k..], seen)[b] == rest[b - 1];
    } else {
      assert Dedup(names[k..], seen)[a] == n && Dedup(names[k..], seen)[b] == rest[b - 1];
      forall j | 0 <= j < k ensures names[j] != n { assert names[j] in names[..k]; }
      assert FirstMention(names, n, k);
      var j := DedupFrom(names, k + 1, seen + {n}, b - 1);
    }
  }

  lemma {:induction false} NamesInOrder(c: Case, a: nat, b: nat)
    requires a < b < |IncludeNames(c)|
    ensures exists i, j :: i < j && FirstMention(AllNames(c), IncludeNames(c)[a], i) &&
              FirstMention(AllNames(c), IncludeNames(c)[b], j)
  {
    assert AllNames(c)[0..] == AllNames(c);
    DedupInOrder(AllNames(c), 0, {}, a, b);
  }

  /** The first name is `sta.js`. */
  lemma {:induction false} StaComesFirst(c: Case)
    ensures |IncludeNames(c)| > 0 && IncludeNames(c)[0] == "sta.js"
  {
    assert AllNames(c)[0] == "sta.js";
  }

  /** The port of `x.js` is `x.ts`, and of a name that does not end in `.js` it is the name with `.ts`. */
  lemma {:induction false} PortNameIs(base: string)
    ensures PortName(base + ".js") == base + ".ts"
    ensures (|base| < 3 || base[|base| - 3..] != ".js") ==> PortName(base) == base + ".ts"
  {
    var name := base + ".js";
    assert name[|name| - 3..] == ".js" && name[..|name| - 3] == base;
  }

  // ---------------------------------------------------------------- the composed source

  /** The contents of the ports of the names, one after the other. */
  ghost predicate AreContents(ports: Ports, names: seq<string>, contents: seq<string>) {
    |contents| == |names| &&
    forall k :: 0 <= k < |names| ==> PortName(names[k]) in ports && ports[PortName(names[k])] == Readable(contents[k])
  }

  function Lines(contents: seq<string>): string {
    if contents == [] then "" else contents[0] + "\n" + Lines(contents[1..])
  }

  lemma {:induction false} SplicedContents(ports: Ports, names: seq<string>) returns (contents: seq<string>)
    requires Splice(ports, names).Source?
    ensures AreContents(ports, names, contents) && Splice(ports, names) == Source(Lines(contents))
  {
    if names == [] {
      contents := [];
    } else {
      var rest := SplicedContents(ports, names[1..]);
      contents := [ports[PortName(names[0])].content] + rest;
      assert contents[1..] == rest;
      forall k | 0 <= k < |names|
        ensures PortName(names[k]) in ports && ports[PortName(names[k])] == Readable(contents[k])
      {
        if k > 0 { assert names[k] == names[1..][k - 1]; }
      }
    }
  }

  const DIRECTIVE := "\"use strict\";\n"

  function Before(mode: string): string {
    if mode == "strict" then DIRECTIVE else ""
  }

  /** What stands behind the ports. */
  ghost function Behind(c: Case, mode: string): string {
    (if mode == "sloppy" && c.meta.negative == None then Hoist.Hoisted(c.source) else "") + c.source +
    (if mode == "module" then "\nexport {};\n" else "")
  }

  /** A text composed in a mode other than raw is the strict directive or nothing, the ports of the include
      names in order, each with a newline, the hoisted declaration for a sloppy test that is not negative, the
      body, and a marker for modules; a raw text is the body. */
  lemma {:induction false} ComposedOfParts(ports: Ports, c: Case, mode: string, text: string)
    requires ComposedSource(ports, c, mode) == Source(text)
    ensures "CanBlockIsFalse" !in c.meta.flags
    ensures mode == "raw" ==> text == c.source
    ensures mode != "raw" ==>
              exists contents :: AreContents(ports, IncludeNames(c), contents) &&
                text == Before(mode) + Lines(contents) + Behind(c, mode)
  {
    if mode != "raw" {
      var contents := SplicedContents(ports, IncludeNames(c));
      assert text == Before(mode) + Lines(contents) + Behind(c, mode);
    }
  }

  /** A case is declined over its host flag exactly if it has the flag, whatever its includes. */
  lemma {:induction false} HostFlagDeclines(ports: Ports, c: Case, mode: string)
    ensures ComposedSource(ports, c, mode) == Declined(HostContextFlag("CanBlockIsFalse")) <==>
            "CanBlockIsFalse" in c.meta.flags
    ensures "CanBlockIsFalse" !in c.meta.flags && mode == "raw" ==> ComposedSource(ports, c, mode) == Source(c.source)
  {
    SpliceSays(ports, IncludeNames(c));
  }

  lemma {:induction false} SpliceSays(ports: Ports, names: seq<string>)
    ensures Splice(ports, names).Declined? ==> !Splice(ports, names).why.HostContextFlag?
  {
    if names != [] { SpliceSays(ports, names[1..]); }
  }

  /** Splicing succeeds exactly if every name can be read, and stops at a port that is there and cannot be read
      exactly if it is the first name that cannot. */
  lemma {:induction false} SpliceStops(ports: Ports, names: seq<string>, n: string)
    ensures Splice(ports, names).Source? <==> forall k :: 0 <= k < |names| ==> CanRead(ports, names[k])
    ensures Splice(ports, names) == Declined(ReadError(n)) <==>
            HasPort(ports, n) && !CanRead(ports, n) &&
            exists k: nat :: k < |names| && names[k] == n && ReadableBefore(ports, names, k)
  {
    if names != [] {
      var rest := names[1..];
      SpliceStops(ports, rest, n);
      assert forall k :: 0 < k < |names| ==> names[k] == rest[k - 1];
      if CanRead(ports, names[0]) {
        if k: nat :| k < |rest| && rest[k] == n && ReadableBefore(ports, rest, k) {
          assert names[k + 1] == n && ReadableBefore(ports, names, k + 1);
        }
        if k: nat :| k < |names| && names[k] == n && ReadableBefore(ports, names, k) && !CanRead(ports, n) {
          assert k > 0 && rest[k - 1] == n;
          forall i | 0 <= i < k - 1 ensures CanRead(ports, rest[i]) { assert rest[i] == names[i + 1]; }
          assert ReadableBefore(ports, rest, k - 1);
        }
      } else if names[0] == n {
        assert ReadableBefore(ports, names, 0);
      }
    }
  }

  predicate StartsWith(s: string, prefix: string) {
    |prefix| <= |s| && s[..|prefix|] == prefix
  }

  lemma {:induction false} NoEarlyNewline(first: string, rest: string)
    requires StartsWith(first + "\n" + rest, DIRECTIVE)
    ensures StartsWith(first + "\n", DIRECTIVE)
  {
    var s := first + "\n" + rest;
    assert forall k :: 0 <= k < |DIRECTIVE| ==> s[k] == s[..|DIRECTIVE|][k];
    assert s[|first|] == '\n' && forall k :: 0 <= k < |DIRECTIVE| - 1 ==> DIRECTIVE[k] != '\n';
    if |first| + 1 >= |DIRECTIVE| {
      assert (first + "\n")[..|DIRECTIVE|] == s[..|DIRECTIVE|];
    }
  }

  lemma {:induction false} Grouped(before: string, first: string, more: string, behind: string)
    ensures before + (first + "\n" + more) + behind == before + (first + "\n" + (more + behind))
  {
  }

  /** The first port is that of `sta.js`. */
  lemma {:induction false} FirstContent(ports: Ports, c: Case, contents: seq<string>)
    requires AreContents(ports, IncludeNames(c), contents)
    ensures contents != [] && "sta.ts" in ports && ports["sta.ts"] == Readable(contents[0])
  {
    StaComesFirst(c);
    PortNameIs("sta");
    assert "sta" + ".js" == "sta.js" && "sta" + ".ts" == "sta.ts";
  }

  /** A text starts with the strict directive exactly in strict mode, unless the first port does. */
  lemma {:induction false} StrictIffDirective(ports: Ports, c: Case, mode: string, text: string)
    requires ComposedSource(ports, c, mode) == Source(text) && mode != "raw"
    requires "sta.ts" in ports && ports["sta.ts"].Readable?
    requires !StartsWith(ports["sta.ts"].content + "\n", DIRECTIVE)
    ensures StartsWith(text, DIRECTIVE) <==> mode == "strict"
  {
    ComposedOfParts(ports, c, mode, text);
    var contents :| AreContents(ports, IncludeNames(c), contents) &&
      text == Before(mode) + Lines(contents) + Behind(c, mode);
    FirstContent(ports, c, contents);
    DirectiveIff(mode, contents[0], Lines(contents[1..]), Behind(c, mode), text);
  }

  lemma {:induction false} DirectiveIff(mode: string, first: string, more: string, behind: string, text: string)
    requires text == Before(mode) + (first + "\n" + more) + behind && !StartsWith(first + "\n", DIRECTIVE)
    ensures StartsWith(text, DIRECTIVE) <==> mode == "strict"
  {
    var rest := more + behind;
    Grouped(Before(mode), first, more, behind);
    if mode == "strict" {
      assert text[..|DIRECTIVE|] == DIRECTIVE;
    } else {
      assert text == first + "\n" + rest;
      if StartsWith(text, DIRECTIVE) { NoEarlyNewline(first, rest); }
    }
  }

  // ---------------------------------------------------------------- modes and fields

  /** Which modes the flags select: raw before module before the strictness flags, sloppy before strict. */
  lemma {:induction false} ModesMean(m: Meta)
    ensures var modes, flags := ModesOf(m), m.flags;
            ("raw" in modes <==> "raw" in flags) &&
            ("module" in modes <==> "raw" !in flags && "module" in flags) &&
            ("strict" in modes <==>
               "raw" !in flags && "module" !in flags && ("onlyStrict" in flags || "noStrict" !in flags)) &&
            ("sloppy" in modes <==> "raw" !in flags && "module" !in flags && "onlyStrict" !in flags) &&
            (|modes| == 1 || modes == ["sloppy", "strict"])
    ensures forall mode :: mode in ModesOf(m) ==>
              mode == "raw" || mode == "module" || mode == "strict" || mode == "sloppy"
  {
  }

  /** The job is what the execution composed, under the names, flags and expected error of its case. */
  ghost predicate IsJobOf(j: Job, s: Slot, text: string, stage: Case -> seq<StagedModule>, entry: Case -> string) {
    j.id == s.c.rel + "#" + s.mode && j.name == s.c.abs && j.source == text &&
    (j.async <==> "async" in s.c.meta.flags) &&
    (s.mode == "module" ==> j.entryName == entry(s.c) && j.modules == stage(s.c)) &&
    (s.mode != "module" ==> j.entryName == "" && j.modules == []) &&
    match s.c.meta.negative
    case None => j.negType == "" && j.negPhase == ""
    case Some(n) => j.negType == n.kind && j.negPhase == n.phase
  }

  /** The handback says over what the execution was declined. */
  ghost predicate IsHandbackOf(r: Result, ports: Ports, s: Slot) {
    r.id == s.c.rel + "#" + s.mode && r.status == "handback" && r.tailKey == "" &&
    match ComposedSource(ports, s.c, s.mode)
    case Declined(UnportedInclude(n)) => r.error == "include not ported: " + n
    case Declined(HostContextFlag(f)) => r.error == "host context flag not modeled: " + f
    case _ => false
  }

  lemma {:induction false} OutcomeMeans(ports: Ports, s: Slot, stage: Case -> seq<StagedModule>, entry: Case -> string)
    ensures var o := OutcomeOf(ports, s, stage, entry);
            (o.Runs? ==>
               ComposedSource(ports, s.c, s.mode) == Source(o.job.source) &&
               IsJobOf(o.job, s, o.job.source, stage, entry)) &&
            (o.Handback? ==> IsHandbackOf(o.r, ports, s))
  {
  }

  /** Every job carries what its case says, and every handback the reason it was declined for. */
  lemma {:induction false} JobsCarry(ports: Ports, slots: seq<Slot>, stage: Case -> seq<StagedModule>,
                                     entry: Case -> string)
    ensures var e := Expand(ports, slots, stage, entry);
            e.Expanded? ==>
              (forall j :: j in e.jobs ==>
                 exists s :: s in slots && ComposedSource(ports, s.c, s.mode) == Source(j.source) &&
                   IsJobOf(j, s, j.source, stage, entry)) &&
              (forall r :: r in e.precooked ==> exists s :: s in slots && IsHandbackOf(r, ports, s))
  {
    if slots != [] {
      var n := |slots| - 1;
      JobsCarry(ports, slots[..n], stage, entry);
      OutcomeMeans(ports, slots[n], stage, entry);
      assert slots[n] in slots && forall s :: s in slots[..n] ==> s in slots;
    }
  }

  ghost predicate CannotRead(ports: Ports, s: Slot) {
    exists name :: ComposedSource(ports, s.c, s.mode) == Declined(ReadError(name))
  }

  /** The expansion fails exactly if some execution comes to a port that is there and cannot be read. */
  lemma {:induction false} FailsIff(ports: Ports, slots: seq<Slot>, stage: Case -> seq<StagedModule>,
                                    entry: Case -> string)
    ensures Expand(ports, slots, stage, entry).Failed? <==> exists s :: s in slots && CannotRead(ports, s)
  {
    if slots != [] {
      var n := |slots| - 1;
      FailsIff(ports, slots[..n], stage, entry);
      assert slots[n] in slots && forall s :: s in slots <==> s in slots[..n] || s == slots[n];
    }
  }
}
