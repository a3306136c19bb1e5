/** From cases to jobs (pkg/tc39/compose.go, pkg/tc39/includes.go, pkg/tc39/discover.go): composing the
    source of a job, auditing the reach of includes, and expanding cases. */
module Compose {
  import opened Types
  import Hoist
  import Exp = Expectations

  datatype Negative = Negative(phase: string, kind: string)

  datatype Meta = Meta(includes: seq<string>, flags: seq<string>, negative: Option<Negative>)

  datatype Case = Case(rel: string, abs: string, meta: Meta, source: string)

  /** A file under the ports directory; a directory or a locked file is there but cannot be read. */
  datatype Port = Readable(content: string) | Unreadable

  type Ports = map<string, Port>

  datatype Decline = UnportedInclude(name: string) | HostContextFlag(flag: string) | ReadError(name: string)

  datatype Composed = Source(text: string) | Declined(why: Decline)

  predicate HasFlag(m: Meta, flag: string) {
    flag in m.flags
  }

  function PortName(name: string): string {
    (if |name| >= 3 && name[|name| - 3..] == ".js" then name[..|name| - 3] else name) + ".ts"
  }

  predicate HasPort(ports: Ports, name: string) {
    PortName(name) in ports
  }

  /** The include names a case asks for, repeats and all. */
  function AllNames(c: Case): seq<string> {
    ["sta.js", "assert.js"] + c.meta.includes + if HasFlag(c.meta, "async") then ["doneprintHandle.js"] else []
  }

  function Dedup(names: seq<string>, seen: set<string>): seq<string> {
    if names == [] then []
    else if names[0] in seen then Dedup(names[1..], seen)
    else [names[0]] + Dedup(names[1..], seen + {names[0]})
  }

  /** includeNames: each name once, in order of first mention. */
  function IncludeNames(c: Case): seq<string> {
    Dedup(AllNames(c), {})
  }

  lemma {:induction false} DedupIs(names: seq<string>, seen: set<string>)
    ensures forall n :: n in Dedup(names, seen) <==> n in names && n !in seen
    ensures forall a, b :: 0 <= a < b < |Dedup(names, seen)| ==> Dedup(names, seen)[a] != Dedup(names, seen)[b]
  {
    if names == [] {
    } else {
      DedupIs(names[1..], if names[0] in seen then seen else seen + {names[0]});
    }
  }

  method IncludeNamesOf(c: Case) returns (out: seq<string>)
    ensures out == IncludeNames(c)
  {
    var names := AllNames(c);
    var seen: set<string> := {};
    out := [];
    var i := 0;
    while i < |names|
      invariant 0 <= i <= |names| && out + Dedup(names[i..], seen) == IncludeNames(c)
    {
      var name := names[i];
      assert names[i..][1..] == names[i + 1..];
      i := i + 1;
      if name in seen { continue; }
      seen := seen + {name};
      out := out + [name];
    }
  }

  // ---------------------------------------------------------------- composing

  /** The ports of the names in order, each with a newline, or the first that cannot be spliced in. */
  function Splice(ports: Ports, names: seq<string>): Composed {
    if names == [] then Source("")
    else if PortName(names[0]) !in ports then Declined(UnportedInclude(names[0]))
    else
      match ports[PortName(names[0])]
      case Unreadable => Declined(ReadError(names[0]))
      case Readable(content) =>
        match Splice(ports, names[1..])
        case Declined(why) => Declined(why)
        case Source(text) => Source(content + "\n" + text)
  }

  predicate CanRead(ports: Ports, name: string) {
    PortName(name) in ports && ports[PortName(name)].Readable?
  }

  /** The composed source of a case in a mode. */
  ghost function ComposedSource(ports: Ports, c: Case, mode: string): Composed {
    if HasFlag(c.meta, "CanBlockIsFalse") then Declined(HostContextFlag("CanBlockIsFalse"))
    else if mode == "raw" then Source(c.source)
    else
      match Splice(ports, IncludeNames(c))
      case Declined(why) => Declined(why)
      case Source(prelude) =>
        Source((if mode == "strict" then "\"use strict\";\n" else "") + prelude +
               (if mode == "sloppy" && c.meta.negative.None? then Hoist.Hoisted(c.source) else "") + c.source +
               (if mode == "module" then "\nexport {};\n" else ""))
  }

  method ComposeCase(ports: Ports, c: Case, mode: string) returns (r: Composed)
    ensures r == ComposedSource(ports, c, mode)
  {
    if HasFlag(c.meta, "CanBlockIsFalse") { return Declined(HostContextFlag("CanBlockIsFalse")); }
    if mode == "raw" { return Source(c.source); }
    var b := "";
    if mode == "strict" { b := "\"use strict\";\n"; }
    var spliced := SpliceNames(ports, c);
    if spliced.Declined? { return spliced; }
    b := b + spliced.text;
    if mode == "sloppy" && c.meta.negative.None? {
      var decl := Hoist.HoistSloppyForBindings(c.source);
      b := b + decl;
    }
    b := b + c.source;
    if mode == "module" { b := b + "\nexport {};\n"; }
    return Source(b);
  }

  /** The loop of Compose, which skips repeats as it goes. */
  method SpliceNames(ports: Ports, c: Case) returns (r: Composed)
    ensures r == Splice(ports, IncludeNames(c))
  {
    var names := AllNames(c);
    var seen: set<string> := {};
    var b := "";
    var i := 0;
    while i < |names|
      invariant 0 <= i <= |names|
      invariant Splice(ports, IncludeNames(c)) ==
                (match Splice(ports, Dedup(names[i..], seen))
                 case Declined(why) => Declined(why)
                 case Source(text) => Source(b + text))
    {
      var name := names[i];
      assert names[i..][1..] == names[i + 1..];
      ghost var rest := Dedup(names[i + 1..], seen + {name});
      assert ([name] + rest)[1..] == rest;
      i := i + 1;
      if name in seen { continue; }
      seen := seen + {name};
      if PortName(name) !in ports { return Declined(UnportedInclude(name)); }
      var port := ports[PortName(name)];
      if port.Unreadable? { return Declined(ReadError(name)); }
      assert forall text :: b + (port.content + "\n" + text) == b + port.content + "\n" + text;
      b := b + port.content + "\n";
    }
    return Source(b);
  }

  /** Splicing stops at name `n` for want of a port exactly when `n` has none and is the first name that
      cannot be read. */
  lemma {:induction false} SpliceDeclines(ports: Ports, names: seq<string>, n: string)
    ensures Splice(ports, names) == Declined(UnportedInclude(n)) <==>
            !HasPort(ports, n) && exists k: nat :: k < |names| && names[k] == n && ReadableBefore(ports, names, k)
  {
    if names == [] {
    } else {
      var rest := names[1..];
      SpliceDeclines(ports, rest, n);
      if CanRead(ports, names[0]) {
        if k: nat :| k < |rest| && rest[k] == n && ReadableBefore(ports, rest, k) {
          forall i | 0 <= i < k + 1 ensures CanRead(ports, names[i]) {
            if i > 0 { assert names[i] == rest[i - 1]; }
          }
          assert names[k + 1] == n && ReadableBefore(ports, names, k + 1);
        }
        if k: nat :| k < |names| && names[k] == n && !HasPort(ports, n) && ReadableBefore(ports, names, k) {
          assert k > 0 && rest[k - 1] == n;
          forall i | 0 <= i < k - 1 ensures CanRead(ports, rest[i]) { assert rest[i] == names[i + 1]; }
          assert ReadableBefore(ports, rest, k - 1);
        }
      } else {
        if Splice(ports, names) == Declined(UnportedInclude(n)) {
          assert names[0] == n && ReadableBefore(ports, names, 0);
        }
      }
    }
  }

  /** Splicing goes name by name, in order: a list that splices is its parts' splices one after the other. */
  lemma {:induction false} SpliceConcat(ports: Ports, a: seq<string>, b: seq<string>)
    ensures Splice(ports, a + b) ==
            match Splice(ports, a)
            case Declined(why) => Declined(why)
            case Source(x) => match Splice(ports, b) case Declined(why) => Declined(why) case Source(y) => Source(x + y)
  {
    if a == [] {
      assert a + b == b;
    } else {
      assert (a + b)[1..] == a[1..] + b;
      SpliceConcat(ports, a[1..], b);
      if CanRead(ports, a[0]) && Splice(ports, a[1..]).Source? && Splice(ports, b).Source? {
        var c, x, y := ports[PortName(a[0])].content, Splice(ports, a[1..]).text, Splice(ports, b).text;
        assert c + "\n" + (x + y) == (c + "\n" + x) + y;
      }
    }
  }

  /** The first include name without a port stands at index `k`. */
  ghost predicate FirstUnported(ports: Ports, names: seq<string>, k: nat) {
    k < |names| && !HasPort(ports, names[k]) && forall i :: 0 <= i < k ==> HasPort(ports, names[i])
  }

  ghost predicate ReadableBefore(ports: Ports, names: seq<string>, k: nat)
    requires k <= |names|
  {
    forall i :: 0 <= i < k ==> CanRead(ports, names[i])
  }

  /** A case that is neither raw nor asks for CanBlockIsFalse is declined for an unported include only if one
      of its audited names has no port, and only over the first such; and it then is exactly if every port
      before that can be read, for one that cannot stops the expansion instead. */
  lemma {:induction false} DeclinesIffUnported(ports: Ports, c: Case, mode: string)
    requires !HasFlag(c.meta, "CanBlockIsFalse") && mode != "raw"
    ensures forall n :: ComposedSource(ports, c, mode) == Declined(UnportedInclude(n)) ==>
              exists k: nat :: FirstUnported(ports, IncludeNames(c), k) && IncludeNames(c)[k] == n
    ensures forall k: nat :: FirstUnported(ports, IncludeNames(c), k) ==>
              (ComposedSource(ports, c, mode) == Declined(UnportedInclude(IncludeNames(c)[k])) <==>
               ReadableBefore(ports, IncludeNames(c), k))
  {
    var names := IncludeNames(c);
    forall n | Splice(ports, names) == Declined(UnportedInclude(n))
      ensures exists k: nat :: FirstUnported(ports, names, k) && names[k] == n
    {
      SpliceDeclines(ports, names, n);
      var k: nat :| k < |names| && names[k] == n && ReadableBefore(ports, names, k);
      assert FirstUnported(ports, names, k);
    }
    forall k: nat | FirstUnported(ports, names, k)
      ensures Splice(ports, names) == Declined(UnportedInclude(names[k])) <==> ReadableBefore(ports, names, k)
    {
      SpliceDeclines(ports, names, names[k]);
      if Splice(ports, names) == Declined(UnportedInclude(names[k])) {
        var m: nat :| m < |names| && names[m] == names[k] && ReadableBefore(ports, names, m);
        assert !(m < k) && !(k < m);
      }
    }
  }

  const LOCKED: Ports := map["sta.ts" := Unreadable]

  function PlainCase(name: string): Case {
    Case("t.js", "t.js", Meta([name], [], None), "")
  }

  /** An include without a port over which no execution is handed back: the first port is there and locked. */
  lemma {:induction false} LockedPortComesFirst(name: string, mode: string)
    requires mode != "raw" && !HasPort(LOCKED, name)
    ensures ComposedSource(LOCKED, PlainCase(name), mode) == Declined(ReadError("sta.js"))
    ensures name in IncludeNames(PlainCase(name))
  {
    var c := PlainCase(name);
    assert AllNames(c) == ["sta.js", "assert.js", name];
    DedupIs(AllNames(c), {});
    assert IncludeNames(c)[0] == "sta.js";
    assert PortName("sta.js") == "sta.ts" by {
      assert "sta.js"[3..] == ".js" && "sta.js"[..3] == "sta";
    }
  }

  // ---------------------------------------------------------------- modes

  function ModesOf(m: Meta): (modes: seq<string>)
    ensures modes != []
  {
    if HasFlag(m, "raw") then ["raw"]
    else if HasFlag(m, "module") then ["module"]
    else if HasFlag(m, "onlyStrict") then ["strict"]
    else if HasFlag(m, "noStrict") then ["sloppy"]
    else ["sloppy", "strict"]
  }

  // ---------------------------------------------------------------- the audit

  datatype IncludeStat = IncludeStat(name: string, ported: bool, jobs: nat, files: nat)

  datatype Tally = Tally(jobs: nat, files: nat)

  /** The jobs, counting modes, and the files of the cases that name `name`. */
  function Reach(cases: seq<Case>, name: string): Tally {
    if cases == [] then Tally(0, 0)
    else
      var n := |cases| - 1;
      var t := Reach(cases[..n], name);
      if name in IncludeNames(cases[n]) then Tally(t.jobs + |ModesOf(cases[n].meta)|, t.files + 1) else t
  }

  function Count(counts: map<string, Tally>, name: string): Tally {
    if name in counts then counts[name] else Tally(0, 0)
  }

  /** One case more, reaching `modes` jobs through each of `names`. */
  ghost function Bumped(t: Tally, modes: nat, hit: bool): Tally {
    if hit then Tally(t.jobs + modes, t.files + 1) else t
  }

  /** What the inner loop adds to the counts, name by name. */
  ghost predicate Bumps(before: map<string, Tally>, counts: map<string, Tally>, modes: nat, names: set<string>) {
    (forall name :: Count(counts, name) == Bumped(Count(before, name), modes, name in names)) &&
    forall name :: name in counts <==> name in before || name in names
  }

  lemma {:induction false} BumpOne(before: map<string, Tally>, counts: map<string, Tally>, modes: nat,
                                   names: set<string>, name: string)
    requires Bumps(before, counts, modes, names) && name !in names
    ensures Bumps(before, counts[name := Bumped(Count(counts, name), modes, true)], modes, names + {name})
  {
  }

  ghost predicate Counted(counts: map<string, Tally>, cases: seq<Case>) {
    forall name :: Count(counts, name) == Reach(cases, name) && (name in counts <==> Reach(cases, name).files > 0)
  }

  lemma {:induction false} CountedMore(cases: seq<Case>, i: nat, before: map<string, Tally>,
                                       counts: map<string, Tally>, names: set<string>)
    requires i < |cases| && Counted(before, cases[..i]) && Bumps(before, counts, |ModesOf(cases[i].meta)|, names)
    requires forall name :: name in names <==> name in IncludeNames(cases[i])
    ensures Counted(counts, cases[..i + 1])
  {
    assert cases[..i + 1][..i] == cases[..i];
  }

  /** The inner loop of AuditIncludes. */
  method BumpAll(before: map<string, Tally>, names: seq<string>, modes: nat) returns (counts: map<string, Tally>)
    requires forall a, b :: 0 <= a < b < |names| ==> names[a] != names[b]
    ensures Bumps(before, counts, modes, set name | name in names)
  {
    counts := before;
    ghost var done: set<string> := {};
    var k := 0;
    while k < |names|
      invariant 0 <= k <= |names|
      invariant forall name :: name in done <==> exists i :: 0 <= i < k && names[i] == name
      invariant Bumps(before, counts, modes, done)
    {
      BumpOne(before, counts, modes, done, names[k]);
      var t := if names[k] in counts then counts[names[k]] else Tally(0, 0);
      counts := counts[names[k] := Tally(t.jobs + modes, t.files + 1)];
      done := done + {names[k]};
      k := k + 1;
    }
    assert done == set name | name in names;
  }

  method CountIncludes(cases: seq<Case>) returns (counts: map<string, Tally>)
    ensures forall name :: Count(counts, name) == Reach(cases, name)
    ensures forall name :: name in counts <==> Reach(cases, name).files > 0
  {
    counts := map[];
    var i := 0;
    assert Counted(counts, cases[..0]);
    while i < |cases|
      invariant 0 <= i <= |cases| && Counted(counts, cases[..i])
    {
      var names := IncludeNamesOf(cases[i]);
      DedupIs(AllNames(cases[i]), {});
      ghost var before := counts;
      counts := BumpAll(counts, names, |ModesOf(cases[i].meta)|);
      CountedMore(cases, i, before, counts, set name | name in names);
      i := i + 1;
    }
    assert cases[..i] == cases;
  }

  predicate Before(a: IncludeStat, b: IncludeStat) {
    if a.jobs != b.jobs then a.jobs > b.jobs else Exp.Less(a.name, b.name)
  }

  /** Bigger reach first, and by name where the reach is the same. */
  ghost predicate ByReach(stats: seq<IncludeStat>) {
    forall a, b :: 0 <= a < b < |stats| ==>
      stats[a].jobs > stats[b].jobs || (stats[a].jobs == stats[b].jobs && Exp.Less(stats[a].name, stats[b].name))
  }

  function InsertStat(s: IncludeStat, stats: seq<IncludeStat>): seq<IncludeStat> {
    if stats == [] || Before(s, stats[0]) then [s] + stats else [stats[0]] + InsertStat(s, stats[1..])
  }

  lemma {:induction false} InsertStatSorts(s: IncludeStat, stats: seq<IncludeStat>)
    requires ByReach(stats) && forall k :: 0 <= k < |stats| ==> stats[k].name != s.name
    ensures ByReach(InsertStat(s, stats)) && forall x :: x in InsertStat(s, stats) <==> x == s || x in stats
  {
    if stats == [] {
    } else {
      Exp.LessTotal(s.name, stats[0].name);
      if Before(s, stats[0]) {
        forall k | 0 <= k < |stats| ensures Before(s, stats[k]) {
          if k > 0 && s.jobs == stats[0].jobs == stats[k].jobs {
            Exp.LessTransitive(s.name, stats[0].name, stats[k].name);
          }
        }
      } else {
        InsertStatSorts(s, stats[1..]);
        var rest := InsertStat(s, stats[1..]);
        forall k | 0 <= k < |rest| ensures Before(stats[0], rest[k]) {
          if rest[k] != s { assert rest[k] in stats[1..]; }
        }
      }
    }
  }

  /** The audited reach of `name`. */
  function StatOf(ports: Ports, cases: seq<Case>, name: string): IncludeStat {
    IncludeStat(name, HasPort(ports, name), Reach(cases, name).jobs, Reach(cases, name).files)
  }

  /** AuditIncludes: every name some case composes is listed once with its reach, among the ported or the
      unported, biggest reach first. */
  method AuditIncludes(ports: Ports, cases: seq<Case>) returns (unported: seq<IncludeStat>, ported: seq<IncludeStat>)
    ensures ByReach(unported) && ByReach(ported)
    ensures forall s :: s in unported <==> s == StatOf(ports, cases, s.name) && s.files > 0 && !s.ported
    ensures forall s :: s in ported <==> s == StatOf(ports, cases, s.name) && s.files > 0 && s.ported
  {
    var counts := CountIncludes(cases);
    unported, ported := [], [];
    var rest := counts.Keys;
    while rest != {}
      invariant rest <= counts.Keys && ByReach(unported) && ByReach(ported)
      invariant forall s :: s in unported <==>
                  s == StatOf(ports, cases, s.name) && s.name in counts && s.name !in rest && !s.ported
      invariant forall s :: s in ported <==>
                  s == StatOf(ports, cases, s.name) && s.name in counts && s.name !in rest && s.ported
      decreases rest
    {
      var name :| name in rest;
      assert Count(counts, name) == Reach(cases, name);
      var stat := IncludeStat(name, HasPort(ports, name), counts[name].jobs, counts[name].files);
      if stat.ported {
        forall k | 0 <= k < |ported| ensures ported[k].name != name { assert ported[k] in ported; }
        InsertStatSorts(stat, ported);
        ported := InsertStat(stat, ported);
      } else {
        forall k | 0 <= k < |unported| ensures unported[k].name != name { assert unported[k] in unported; }
        InsertStatSorts(stat, unported);
        unported := InsertStat(stat, unported);
      }
      rest := rest - {name};
    }
  }

  /** The audited job count is the sum, over the cases that name the include, of their modes, and it is
      positive exactly when some case names it. */
  lemma {:induction false} ReachIsSum(cases: seq<Case>, name: string)
    ensures Reach(cases, name).files > 0 <==> exists k :: 0 <= k < |cases| && name in IncludeNames(cases[k])
    ensures Reach(cases, name).jobs == |JobsNaming(cases, name)|
  {
    if cases == [] {
    } else {
      var n := |cases| - 1;
      ReachIsSum(cases[..n], name);
      if k :| 0 <= k < n && name in IncludeNames(cases[..n][k]) { assert name in IncludeNames(cases[k]); }
      if k :| 0 <= k < |cases| && name in IncludeNames(cases[k]) {
        if k < n { assert cases[..n][k] == cases[k]; }
      }
    }
  }

  /** One case in one of its modes. */
  datatype Slot = Slot(c: Case, mode: string)

  function SlotsOf(c: Case, modes: seq<string>): (r: seq<Slot>)
    ensures |r| == |modes| && forall k :: 0 <= k < |modes| ==> r[k] == Slot(c, modes[k])
  {
    seq(|modes|, k requires 0 <= k < |modes| => Slot(c, modes[k]))
  }

  /** All executions, in case order. */
  function Slots(cases: seq<Case>): seq<Slot> {
    if cases == [] then []
    else
      var n := |cases| - 1;
      Slots(cases[..n]) + SlotsOf(cases[n], ModesOf(cases[n].meta))
  }

  /** The executions whose case names an include. */
  function JobsNaming(cases: seq<Case>, name: string): seq<Slot> {
    if cases == [] then []
    else
      var n := |cases| - 1;
      JobsNaming(cases[..n], name) +
      if name in IncludeNames(cases[n]) then SlotsOf(cases[n], ModesOf(cases[n].meta)) else []
  }

  // ---------------------------------------------------------------- what an unported include gates

  /** The execution is handed back over `name`. */
  ghost predicate HandedBackOver(ports: Ports, s: Slot, name: string) {
    ComposedSource(ports, s.c, s.mode) == Declined(UnportedInclude(name))
  }

  /** The execution splices includes, and of these `name` is the first that cannot be read: it has no port. */
  ghost predicate Gates(ports: Ports, s: Slot, name: string) {
    !HasFlag(s.c.meta, "CanBlockIsFalse") && s.mode != "raw" && !HasPort(ports, name) &&
    var names := IncludeNames(s.c);
    exists k: nat :: k < |names| && names[k] == name && ReadableBefore(ports, names, k)
  }

  lemma {:induction false} GatesIff(ports: Ports, s: Slot, name: string)
    ensures HandedBackOver(ports, s, name) <==> Gates(ports, s, name)
    ensures HandedBackOver(ports, s, name) ==> name in IncludeNames(s.c)
  {
    SpliceDeclines(ports, IncludeNames(s.c), name);
  }

  function Filtered(slots: seq<Slot>, p: Slot -> bool): (r: seq<Slot>)
    ensures |r| <= |slots|
  {
    if slots == [] then [] else (if p(slots[0]) then [slots[0]] else []) + Filtered(slots[1..], p)
  }

  lemma {:induction false} FilteredFirst(s: Slot, rest: seq<Slot>, p: Slot -> bool)
    ensures Filtered([s] + rest, p) == (if p(s) then [s] else []) + Filtered(rest, p)
  {
    assert ([s] + rest)[1..] == rest;
  }

  lemma {:induction false} FilteredConcat(a: seq<Slot>, b: seq<Slot>, p: Slot -> bool)
    ensures Filtered(a + b, p) == Filtered(a, p) + Filtered(b, p)
  {
    if a == [] {
      assert a + b == b;
    } else {
      var s, rest := a[0], a[1..];
      FilteredConcat(rest, b, p);
      FilteredFirst(s, rest, p);
      FilteredFirst(s, rest + b, p);
      assert a == [s] + rest && a + b == [s] + (rest + b);
    }
  }

  lemma {:induction false} FilteredAll(slots: seq<Slot>, p: Slot -> bool)
    ensures |Filtered(slots, p)| == |slots| <==> forall s :: s in slots ==> p(s)
  {
    if slots != [] {
      FilteredAll(slots[1..], p);
      assert forall s :: s in slots <==> s == slots[0] || s in slots[1..];
    }
  }

  lemma {:induction false} FilteredNone(slots: seq<Slot>, p: Slot -> bool)
    requires forall s :: s in slots ==> !p(s)
    ensures Filtered(slots, p) == []
  {
    if slots != [] { FilteredNone(slots[1..], p); }
  }

  /** A property that only executions naming the include have picks the same from those and from all. */
  lemma {:induction false} FilteredNaming(cases: seq<Case>, name: string, p: Slot -> bool)
    requires forall s :: p(s) ==> name in IncludeNames(s.c)
    ensures Filtered(Slots(cases), p) == Filtered(JobsNaming(cases, name), p)
  {
    if cases != [] {
      var n := |cases| - 1;
      var own := SlotsOf(cases[n], ModesOf(cases[n].meta));
      FilteredNaming(cases[..n], name, p);
      FilteredConcat(Slots(cases[..n]), own, p);
      if name in IncludeNames(cases[n]) {
        FilteredConcat(JobsNaming(cases[..n], name), own, p);
      } else {
        FilteredNone(own, p);
        assert JobsNaming(cases, name) == JobsNaming(cases[..n], name);
      }
    }
  }

  /** The executions handed back over `name`. */
  ghost function Gated(ports: Ports, cases: seq<Case>, name: string): seq<Slot> {
    Filtered(Slots(cases), s => HandedBackOver(ports, s, name))
  }

  /** The audited reach of an include is the number of executions handed back over it, exactly when it has no
      port and every execution that names it splices includes and can read those it splices before. */
  lemma {:induction false} ReachIsGatedIff(ports: Ports, cases: seq<Case>, name: string)
    ensures Reach(cases, name).jobs == |Gated(ports, cases, name)| <==>
            forall s :: s in JobsNaming(cases, name) ==> Gates(ports, s, name)
  {
    var over := (s: Slot) => HandedBackOver(ports, s, name);
    assert Gated(ports, cases, name) == Filtered(Slots(cases), over);
    forall s: Slot
      ensures over(s) <==> Gates(ports, s, name)
      ensures over(s) ==> name in IncludeNames(s.c)
    {
      GatesIff(ports, s, name);
    }
    ReachIsSum(cases, name);
    FilteredNaming(cases, name, over);
    FilteredAll(JobsNaming(cases, name), over);
  }

  // ---------------------------------------------------------------- jobs

  function SlotId(s: Slot): JobId {
    s.c.rel + "#" + s.mode
  }

  /** The job of an execution that composed. */
  function JobOf(s: Slot, text: string, stage: Case -> seq<StagedModule>, entry: Case -> string): Job {
    Job(SlotId(s), s.c.abs, text,
        if s.mode == "module" then entry(s.c) else "", if s.mode == "module" then stage(s.c) else [],
        HasFlag(s.c.meta, "async"),
        if s.c.meta.negative.Some? then s.c.meta.negative.value.kind else "",
        if s.c.meta.negative.Some? then s.c.meta.negative.value.phase else "")
  }

  function Reason(why: Decline): string {
    match why
    case UnportedInclude(name) => "include not ported: " + name
    case HostContextFlag(flag) => "host context flag not modeled: " + flag
    case ReadError(name) => "read port: " + name
  }

  datatype Outcome = Runs(job: Job) | Handback(r: Result) | Fatal

  ghost function OutcomeOf(ports: Ports, s: Slot, stage: Case -> seq<StagedModule>, entry: Case -> string): Outcome {
    match ComposedSource(ports, s.c, s.mode)
    case Source(text) => Runs(JobOf(s, text, stage, entry))
    case Declined(ReadError(_)) => Fatal
    case Declined(why) => Handback(Result(SlotId(s), "handback", Reason(why), ""))
  }

  /** What the executions come to, up to the first fatal one. */
  datatype Expansion = Failed | Expanded(jobs: seq<Job>, precooked: seq<Result>)

  ghost function Expand(ports: Ports, slots: seq<Slot>, stage: Case -> seq<StagedModule>,
                        entry: Case -> string): Expansion {
    if slots == [] then Expanded([], [])
    else
      var n := |slots| - 1;
      match (Expand(ports, slots[..n], stage, entry), OutcomeOf(ports, slots[n], stage, entry))
      case (Expanded(jobs, cooked), Runs(j)) => Expanded(jobs + [j], cooked)
      case (Expanded(jobs, cooked), Handback(r)) => Expanded(jobs, cooked + [r])
      case _ => Failed
  }

  /** Jobs, for one execution. */
  method ExpandSlot(ports: Ports, c: Case, mode: string, stage: Case -> seq<StagedModule>, entry: Case -> string,
                    ghost before: seq<Slot>, start: Expansion)
    returns (e: Expansion)
    requires start == Expand(ports, before, stage, entry)
    ensures e == Expand(ports, before + [Slot(c, mode)], stage, entry)
  {
    ExpandOne(ports, before, Slot(c, mode), stage, entry);
    var composed := ComposeCase(ports, c, mode);
    if start.Failed? { return Failed; }
    match composed {
      case Source(text) => return start.(jobs := start.jobs + [JobOf(Slot(c, mode), text, stage, entry)]);
      case Declined(ReadError(_)) => return Failed;
      case Declined(why) =>
        var r := Result(SlotId(Slot(c, mode)), "handback", Reason(why), "");
        return start.(precooked := start.precooked + [r]);
    }
  }

  /** Jobs, for one case: its modes in order. */
  method ExpandCase(ports: Ports, c: Case, stage: Case -> seq<StagedModule>, entry: Case -> string,
                    ghost before: seq<Slot>, start: Expansion)
    returns (e: Expansion)
    requires start == Expand(ports, before, stage, entry)
    ensures e == Expand(ports, before + SlotsOf(c, ModesOf(c.meta)), stage, entry)
  {
    e := start;
    var modes := ModesOf(c.meta);
    ghost var done := before;
    assert before + SlotsOf(c, modes)[..0] == before;
    var k := 0;
    while k < |modes|
      invariant 0 <= k <= |modes| && done == before + SlotsOf(c, modes)[..k] && e == Expand(ports, done, stage, entry)
    {
      e := ExpandSlot(ports, c, modes[k], stage, entry, done, e);
      SlotsNext(c, modes, k, before);
      done := done + [Slot(c, modes[k])];
      k := k + 1;
    }
    assert SlotsOf(c, modes)[..k] == SlotsOf(c, modes);
  }

  lemma {:induction false} SlotsNext(c: Case, modes: seq<string>, k: nat, before: seq<Slot>)
    requires k < |modes|
    ensures before + SlotsOf(c, modes)[..k + 1] == before + SlotsOf(c, modes)[..k] + [Slot(c, modes[k])]
  {
  }

  lemma {:induction false} SlotsMore(cases: seq<Case>, i: nat)
    requires i < |cases|
    ensures Slots(cases[..i + 1]) == Slots(cases[..i]) + SlotsOf(cases[i], ModesOf(cases[i].meta))
  {
    assert cases[..i + 1][..i] == cases[..i];
  }

  method Jobs(ports: Ports, cases: seq<Case>, stage: Case -> seq<StagedModule>, entry: Case -> string)
    returns (e: Expansion)
    ensures e == Expand(ports, Slots(cases), stage, entry)
  {
    e := Expanded([], []);
    var i := 0;
    while i < |cases|
      invariant 0 <= i <= |cases| && e == Expand(ports, Slots(cases[..i]), stage, entry)
    {
      SlotsMore(cases, i);
      e := ExpandCase(ports, cases[i], stage, entry, Slots(cases[..i]), e);
      i := i + 1;
    }
    assert cases[..i] == cases;
  }

  lemma {:induction false} ExpandOne(ports: Ports, slots: seq<Slot>, s: Slot, stage: Case -> seq<StagedModule>,
                                     entry: Case -> string)
    ensures Expand(ports, slots + [s], stage, entry) ==
            match (Expand(ports, slots, stage, entry), OutcomeOf(ports, s, stage, entry))
            case (Expanded(jobs, cooked), Runs(j)) => Expanded(jobs + [j], cooked)
            case (Expanded(jobs, cooked), Handback(r)) => Expanded(jobs, cooked + [r])
            case _ => Failed
  {
    assert (slots + [s])[..|slots|] == slots;
  }

  /** The executions that produced the jobs, and the ones that were handed back. */
  ghost function RunSlots(ports: Ports, slots: seq<Slot>, stage: Case -> seq<StagedModule>, entry: Case -> string,
                          runs: bool): seq<JobId> {
    if slots == [] then []
    else
      var n := |slots| - 1;
      RunSlots(ports, slots[..n], stage, entry, runs) +
      if OutcomeOf(ports, slots[n], stage, entry).Runs? == runs then [SlotId(slots[n])] else []
  }

  /** Every execution yields exactly one job or one handback, in case order within each list. */
  lemma {:induction false} OneOutcomeEach(ports: Ports, slots: seq<Slot>, stage: Case -> seq<StagedModule>,
                                          entry: Case -> string)
    ensures var e := Expand(ports, slots, stage, entry);
            e.Expanded? ==>
              |e.jobs| + |e.precooked| == |slots| &&
              |e.jobs| == |RunSlots(ports, slots, stage, entry, true)| &&
              |e.precooked| == |RunSlots(ports, slots, stage, entry, false)| &&
              (forall k :: 0 <= k < |e.jobs| ==> e.jobs[k].id == RunSlots(ports, slots, stage, entry, true)[k]) &&
              (forall k :: 0 <= k < |e.precooked| ==>
               e.precooked[k].id == RunSlots(ports, slots, stage, entry, false)[k])
  {
    if slots == [] {
    } else {
      OneOutcomeEach(ports, slots[..|slots| - 1], stage, entry);
    }
  }

  // ---------------------------------------------------------------- unique IDs

  predicate IsMode(mode: string) {
    mode == "raw" || mode == "module" || mode == "strict" || mode == "sloppy"
  }

  /** The last `#` of an ID is the one before its mode. */
  lemma {:induction false} LastHash(s: Slot, k: nat)
    requires IsMode(s.mode) && k < |SlotId(s)|
    ensures SlotId(s)[|s.c.rel|] == '#' && (SlotId(s)[k] == '#' ==> k <= |s.c.rel|)
  {
    var id := SlotId(s);
    assert id[|s.c.rel| + 1..] == s.mode;
    if k > |s.c.rel| {
      assert id[k] == s.mode[k - |s.c.rel| - 1];
    }
  }

  /** The mode suffix of an ID can be read back, whatever the path. */
  lemma {:induction false} SlotIdInjective(a: Slot, b: Slot)
    requires IsMode(a.mode) && IsMode(b.mode) && SlotId(a) == SlotId(b)
    ensures a.c.rel == b.c.rel && a.mode == b.mode
  {
    var s := SlotId(a);
    LastHash(a, |b.c.rel|);
    LastHash(b, |a.c.rel|);
    assert s[..|a.c.rel|] == a.c.rel && s[..|b.c.rel|] == b.c.rel;
    assert s[|a.c.rel| + 1..] == a.mode && s[|b.c.rel| + 1..] == b.mode;
  }

  ghost predicate DistinctRels(cases: seq<Case>) {
    forall a, b :: 0 <= a < b < |cases| ==> cases[a].rel != cases[b].rel
  }

  ghost predicate DistinctSlots(slots: seq<Slot>) {
    forall a, b :: 0 <= a < b < |slots| ==> SlotId(slots[a]) != SlotId(slots[b])
  }

  lemma {:induction false} OwnDistinct(c: Case)
    ensures DistinctSlots(SlotsOf(c, ModesOf(c.meta)))
    ensures AllOf({c.rel}, SlotsOf(c, ModesOf(c.meta)))
  {
    var own := SlotsOf(c, ModesOf(c.meta));
    forall a, b | 0 <= a < b < |own| ensures SlotId(own[a]) != SlotId(own[b]) {
      if SlotId(own[a]) == SlotId(own[b]) { SlotIdInjective(own[a], own[b]); }
    }
  }

  /** Slots in known modes of cases with known paths. */
  ghost predicate AllOf(rels: set<string>, slots: seq<Slot>) {
    forall k :: 0 <= k < |slots| ==> slots[k].c.rel in rels && IsMode(slots[k].mode)
  }

  lemma {:induction false} DistinctConcat(rels: set<string>, before: seq<Slot>, rel: string, own: seq<Slot>)
    requires DistinctSlots(before) && DistinctSlots(own) && AllOf(rels, before) && AllOf({rel}, own) && rel !in rels
    ensures DistinctSlots(before + own) && AllOf(rels + {rel}, before + own)
  {
    forall a, b | 0 <= a < |before| && 0 <= b < |own| ensures SlotId(before[a]) != SlotId(own[b]) {
      if SlotId(before[a]) == SlotId(own[b]) { SlotIdInjective(before[a], own[b]); }
    }
  }

  function Rels(cases: seq<Case>): set<string> {
    set k | 0 <= k < |cases| :: cases[k].rel
  }

  lemma {:induction false} SlotsDistinct(cases: seq<Case>)
    requires DistinctRels(cases)
    ensures DistinctSlots(Slots(cases)) && AllOf(Rels(cases), Slots(cases))
  {
    if cases == [] {
    } else {
      var n := |cases| - 1;
      SlotsDistinct(cases[..n]);
      OwnDistinct(cases[n]);
      var rels := Rels(cases[..n]);
      DistinctConcat(rels, Slots(cases[..n]), cases[n].rel, SlotsOf(cases[n], ModesOf(cases[n].meta)));
      assert rels + {cases[n].rel} == Rels(cases);
    }
  }

  ghost predicate HasId(slots: seq<Slot>, id: JobId) {
    exists i :: 0 <= i < |slots| && SlotId(slots[i]) == id
  }

  ghost predicate NoRepeat(ids: seq<JobId>) {
    forall a, b :: 0 <= a < b < |ids| ==> ids[a] != ids[b]
  }

  lemma {:induction false} RunSlotsFrom(ports: Ports, slots: seq<Slot>, stage: Case -> seq<StagedModule>,
                                        entry: Case -> string, runs: bool, id: JobId)
    requires id in RunSlots(ports, slots, stage, entry, runs)
    ensures HasId(slots, id)
  {
    var n := |slots| - 1;
    var before := slots[..n];
    if id in RunSlots(ports, before, stage, entry, runs) {
      RunSlotsFrom(ports, before, stage, entry, runs, id);
      var i :| 0 <= i < |before| && SlotId(before[i]) == id;
      assert SlotId(slots[i]) == id;
    } else {
      assert SlotId(slots[n]) == id;
    }
  }

  lemma {:induction false} LastIsNew(slots: seq<Slot>)
    requires slots != [] && DistinctSlots(slots)
    ensures var n := |slots| - 1; DistinctSlots(slots[..n]) && !HasId(slots[..n], SlotId(slots[n]))
  {
  }

  lemma {:induction false} AppendNew(ids: seq<JobId>, id: JobId)
    requires NoRepeat(ids) && id !in ids
    ensures NoRepeat(ids + [id])
  {
  }

  lemma {:induction false} RunSlotsDistinct(ports: Ports, slots: seq<Slot>, stage: Case -> seq<StagedModule>,
                                            entry: Case -> string, runs: bool)
    requires DistinctSlots(slots)
    ensures NoRepeat(RunSlots(ports, slots, stage, entry, runs))
  {
    if slots == [] {
    } else {
      var before, id := slots[..|slots| - 1], SlotId(slots[|slots| - 1]);
      var ids := RunSlots(ports, before, stage, entry, runs);
      LastIsNew(slots);
      RunSlotsDistinct(ports, before, stage, entry, runs);
      if id in ids { RunSlotsFrom(ports, before, stage, entry, runs, id); }
      AppendNew(ids, id);
    }
  }

  /** Cases with distinct paths expand to jobs with distinct IDs, which is what the run protocol and the
      results map rely on. */
  lemma {:induction false} JobIdsDistinct(ports: Ports, cases: seq<Case>, stage: Case -> seq<StagedModule>,
                                          entry: Case -> string)
    requires DistinctRels(cases)
    ensures var e := Expand(ports, Slots(cases), stage, entry);
            e.Expanded? ==> forall a, b :: 0 <= a < b < |e.jobs| ==> e.jobs[a].id != e.jobs[b].id
  {
    SlotsDistinct(cases);
    assert NoRepeat(RunSlots(ports, Slots(cases), stage, entry, true)) by {
      RunSlotsDistinct(ports, Slots(cases), stage, entry, true);
    }
    OneOutcomeEach(ports, Slots(cases), stage, entry);
  }
}
