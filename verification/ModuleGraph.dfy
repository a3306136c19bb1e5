/** The module graph walk (pkg/tc39/modulegraph.go): which sibling modules a module-goal test stages. */
module ModuleGraph {
  import opened Types

  /** The corpus as the walk sees it: readable files by path, the relative specifiers of a source, and
      the path functions of Go's standard library. */
  datatype Corpus = Corpus(files: map<string, string>, specs: string -> seq<string>,
                           clean: string -> string, join: (string, string) -> string, dirOf: string -> string)

  predicate HasSuffix(s: string, suffix: string) {
    |suffix| <= |s| && s[|s| - |suffix|..] == suffix
  }

  function SwapSuffix(s: string, suffix: string, other: string): string
    requires HasSuffix(s, suffix)
  {
    s[..|s| - |suffix|] + other
  }

  function TsExtension(name: string): string {
    if HasSuffix(name, ".js") then SwapSuffix(name, ".js", ".ts")
    else if HasSuffix(name, ".mjs") then SwapSuffix(name, ".mjs", ".mts")
    else if HasSuffix(name, ".cjs") then SwapSuffix(name, ".cjs", ".cts")
    else name
  }

  function TrimDot(spec: string): string {
    if "./" <= spec then spec[2..] else spec
  }

  function StagedName(c: Corpus, spec: string): string {
    TsExtension(c.clean(TrimDot(spec)))
  }

  predicate Climbs(name: string) {
    name == ".." || "../" <= name
  }

  function FileAt(c: Corpus, path: string): Option<string> {
    if path in c.files then Some(c.files[path]) else None
  }

  /** readModuleFile: the path as written, then its TypeScript sibling. */
  function ReadModule(c: Corpus, path: string): Option<string> {
    if path in c.files then FileAt(c, path)
    else if TsExtension(path) != path then FileAt(c, TsExtension(path))
    else None
  }

  lemma {:induction false} SwapsSuffix(base: string, suffix: string, other: string)
    requires |suffix| == |other| && suffix != other
    ensures HasSuffix(base + suffix, suffix)
    ensures SwapSuffix(base + suffix, suffix, other) == base + other != base + suffix
  {
    var path := base + suffix;
    assert path[|path| - |suffix|..] == suffix && path[..|path| - |suffix|] == base;
    assert (base + other)[|base|..] == other;
  }

  /** Only one `./` in front of a specifier goes. */
  lemma {:induction false} TrimDotIs(rest: string)
    ensures TrimDot("./" + rest) == rest
    ensures forall spec: string :: !("./" <= spec) ==> TrimDot(spec) == spec
  {
    assert ("./" + rest)[..2] == "./" && ("./" + rest)[2..] == rest;
  }

  lemma {:induction false} NoDotJs(base: string, c: char)
    requires c != '.'
    ensures !HasSuffix(base + ['.', c, 'j', 's'], ".js")
  {
    var path := base + ['.', c, 'j', 's'];
    assert path[|path| - 3..][0] == c;
  }

  /** A path in JavaScript becomes the same path in TypeScript. */
  lemma {:induction false} TsExtensionIs(base: string)
    ensures TsExtension(base + ".js") == base + ".ts"
    ensures TsExtension(base + ".mjs") == base + ".mts"
    ensures TsExtension(base + ".cjs") == base + ".cts"
  {
    SwapsSuffix(base, ".js", ".ts");
    SwapsSuffix(base, ".mjs", ".mts");
    SwapsSuffix(base, ".cjs", ".cts");
    NoDotJs(base, 'm');
    NoDotJs(base, 'c');
    assert ".mjs" == ['.', 'm', 'j', 's'] && ".cjs" == ['.', 'c', 'j', 's'];
    assert !HasSuffix(base + ".cjs", ".mjs") by {
      var path := base + ".cjs";
      assert path[|path| - 4..][1] == 'c';
    }
  }

  /** A module is the file at the path as written if there is one, else its TypeScript sibling, else none. */
  lemma {:induction false} ReadModuleMeans(c: Corpus, base: string, path: string)
    ensures path in c.files ==> ReadModule(c, path) == Some(c.files[path])
    ensures path == base + ".js" && path !in c.files ==>
              ReadModule(c, path) == if base + ".ts" in c.files then Some(c.files[base + ".ts"]) else None
    ensures path == base + ".mjs" && path !in c.files ==>
              ReadModule(c, path) == if base + ".mts" in c.files then Some(c.files[base + ".mts"]) else None
    ensures path == base + ".cjs" && path !in c.files ==>
              ReadModule(c, path) == if base + ".cts" in c.files then Some(c.files[base + ".cts"]) else None
    ensures path !in c.files && !HasSuffix(path, ".js") && !HasSuffix(path, ".mjs") && !HasSuffix(path, ".cjs") ==>
              ReadModule(c, path) == None
  {
    TsExtensionIs(base);
    SwapsSuffix(base, ".js", ".ts");
    SwapsSuffix(base, ".mjs", ".mts");
    SwapsSuffix(base, ".cjs", ".cts");
  }

  // ---------------------------------------------------------------- reachability

  /** What a name stands for: the entry's own source, or the file its specifier resolves to. */
  datatype Graph = Graph(entry: string, source: string, load: string -> Option<string>) {
    function SourceOf(n: string): Option<string> {
      if n == entry then Some(source) else load(n)
    }
  }

  predicate Imports(c: Corpus, source: string, n: string) {
    exists spec :: spec in c.specs(source) && StagedName(c, spec) == n
  }

  /** A chain of imports from the entry, every module on it but the last one readable. */
  ghost predicate IsPath(c: Corpus, g: Graph, p: seq<string>) {
    p != [] && p[0] == g.entry &&
    forall i :: 0 <= i < |p| - 1 ==> g.SourceOf(p[i]).Some? && Imports(c, g.SourceOf(p[i]).value, p[i + 1])
  }

  ghost predicate Reachable(c: Corpus, g: Graph, n: string) {
    exists p :: IsPath(c, g, p) && p[|p| - 1] == n
  }

  lemma {:induction false} ReachableStep(c: Corpus, g: Graph, n: string, m: string)
    requires Reachable(c, g, n) && g.SourceOf(n).Some? && Imports(c, g.SourceOf(n).value, m)
    ensures Reachable(c, g, m)
  {
    var p :| IsPath(c, g, p) && p[|p| - 1] == n;
    var q := p + [m];
    forall i | 0 <= i < |q| - 1 ensures g.SourceOf(q[i]).Some? && Imports(c, g.SourceOf(q[i]).value, q[i + 1]) {
      assert q[i] == p[i];
      if i + 1 < |p| { assert q[i + 1] == p[i + 1]; }
    }
    assert IsPath(c, g, q);
  }

  /** A set of names closed under imports of its readable members contains all that is reachable. */
  lemma {:induction false} ClosedContains(c: Corpus, g: Graph, closed: set<string>, p: seq<string>)
    requires g.entry in closed && IsPath(c, g, p)
    requires forall n, m :: n in closed && g.SourceOf(n).Some? && Imports(c, g.SourceOf(n).value, m) ==> m in closed
    ensures p[|p| - 1] in closed
    decreases |p|
  {
    if |p| == 1 {
    } else {
      var q := p[..|p| - 1];
      assert forall i :: 0 <= i < |q| ==> q[i] == p[i];
      assert IsPath(c, g, q);
      ClosedContains(c, g, closed, q);
      assert Imports(c, g.SourceOf(p[|p| - 2]).value, p[|p| - 1]);
    }
  }

  // ---------------------------------------------------------------- the walk

  datatype Work = Work(dir: string, source: string)

  /** Every name a specifier of the entry or of any file can produce. */
  function AllNames(c: Corpus, entrySource: string): set<string> {
    set source, spec | source in {entrySource} + c.files.Values && spec in c.specs(source) :: StagedName(c, spec)
  }

  /** All specifiers, met in directory `dir`, stay in it, and one name always means one file. */
  ghost predicate Flat(c: Corpus, g: Graph, dir: string) {
    forall source, spec :: source in {g.source} + c.files.Values && spec in c.specs(source) ==>
      !Climbs(StagedName(c, spec)) && c.dirOf(c.join(dir, TrimDot(spec))) == dir &&
      ReadModule(c, c.join(dir, TrimDot(spec))) == g.load(StagedName(c, spec))
  }

  ghost predicate DistinctNames(out: seq<StagedModule>) {
    forall a, b :: 0 <= a < b < |out| ==> out[a].name != out[b].name
  }

  /** No name leads out of the directory. */
  ghost predicate AllInside(out: seq<StagedModule>) {
    forall k :: 0 <= k < |out| ==> out[k].name != ".." && forall rest: string :: out[k].name != "../" + rest
  }

  lemma {:induction false} ClimbsMeans(name: string)
    ensures Climbs(name) <==> name == ".." || exists rest: string :: name == "../" + rest
  {
    if "../" <= name { assert name == "../" + name[3..]; }
    if rest: string :| name == "../" + rest { assert name[..3] == "../"; }
  }

  ghost predicate Staged(out: seq<StagedModule>, n: string) {
    exists k :: 0 <= k < |out| && out[k].name == n
  }

  /** What is staged so far is reachable and holds what its name stands for. */
  ghost predicate Sound(c: Corpus, g: Graph, out: seq<StagedModule>) {
    forall k :: 0 <= k < |out| ==>
      out[k].name != g.entry && Reachable(c, g, out[k].name) && g.load(out[k].name) == Some(out[k].source)
  }

  /** The readable names visited are staged; the imports of the entry and of staged modules are visited
      or their source still waits in the queue. */
  ghost predicate Covered(c: Corpus, g: Graph, visited: set<string>, out: seq<StagedModule>, waiting: set<string>) {
    (forall n :: n in visited && n != g.entry && g.load(n).Some? ==> Staged(out, n)) &&
    (forall n, m ::
       n in visited && g.SourceOf(n).Some? && g.SourceOf(n).value !in waiting && Imports(c, g.SourceOf(n).value, m) ==>
       m in visited)
  }

  ghost function Waiting(queue: seq<Work>): set<string> {
    set k | 0 <= k < |queue| :: queue[k].source
  }

  /** A queued source comes from a file or is the entry's; in the flat case it belongs to a reachable name. */
  ghost predicate Queued(c: Corpus, g: Graph, dir: string, flat: bool, w: Work) {
    w.source in {g.source} + c.files.Values &&
    (flat ==> w.dir == dir && exists n :: Reachable(c, g, n) && g.SourceOf(n) == Some(w.source))
  }

  /** A readable module joins what is staged. */
  lemma {:induction false} StageOne(c: Corpus, g: Graph, visited: set<string>, out: seq<StagedModule>,
                                    waiting: set<string>, m: StagedModule)
    requires Sound(c, g, out) && Covered(c, g, visited, out, waiting) && g.entry in visited
    requires m.name !in visited && Reachable(c, g, m.name) && g.load(m.name) == Some(m.source)
    ensures Sound(c, g, out + [m]) && Covered(c, g, visited + {m.name}, out + [m], waiting + {m.source})
  {
    var more := out + [m];
    forall n | n in visited + {m.name} && n != g.entry && g.load(n).Some? ensures Staged(more, n) {
      if n == m.name {
        assert more[|out|].name == n;
      } else {
        var k :| 0 <= k < |out| && out[k].name == n;
        assert more[k].name == n;
      }
    }
  }

  lemma {:induction false} VisitUnreadable(c: Corpus, g: Graph, visited: set<string>, out: seq<StagedModule>,
                                           waiting: set<string>, name: string)
    requires Covered(c, g, visited, out, waiting) && g.entry in visited && name !in visited && g.load(name).None?
    ensures Covered(c, g, visited + {name}, out, waiting)
  {
  }

  /** A source all of whose imports are visited need not wait any more. */
  lemma {:induction false} StopWaiting(c: Corpus, g: Graph, visited: set<string>, out: seq<StagedModule>,
                                       waiting: set<string>, source: string)
    requires Covered(c, g, visited, out, waiting + {source})
    requires forall k :: 0 <= k < |c.specs(source)| ==> StagedName(c, c.specs(source)[k]) in visited
    ensures Covered(c, g, visited, out, waiting)
  {
  }

  /** The variables of the walk. */
  datatype Walk = Walk(visited: set<string>, out: seq<StagedModule>, queue: seq<Work>)

  /** What holds of them while the imports of the sources in `current` are being looked at. */
  ghost predicate WalkOk(c: Corpus, g: Graph, dir: string, flat: bool, w: Walk, current: set<string>) {
    g.entry in w.visited && w.visited <= AllNames(c, g.source) + {g.entry} &&
    (forall k :: 0 <= k < |w.queue| ==> Queued(c, g, dir, flat, w.queue[k])) &&
    DistinctNames(w.out) && AllInside(w.out) &&
    (forall k :: 0 <= k < |w.out| ==> w.out[k].name in w.visited && w.out[k].name != g.entry) &&
    (flat ==> Sound(c, g, w.out) && Covered(c, g, w.visited, w.out, Waiting(w.queue) + current))
  }

  lemma {:induction false} WalkStages(c: Corpus, g: Graph, dir: string, flat: bool, w: Walk, current: set<string>,
                                      m: StagedModule, next: Work)
    requires WalkOk(c, g, dir, flat, w, current) && m.name !in w.visited && m.name in AllNames(c, g.source)
    requires !Climbs(m.name)
    requires next.source == m.source && m.source in c.files.Values
    requires flat ==> next.dir == dir && Reachable(c, g, m.name) && g.load(m.name) == Some(m.source)
    ensures WalkOk(c, g, dir, flat, Walk(w.visited + {m.name}, w.out + [m], w.queue + [next]), current)
  {
    WaitingMore(w.queue, next);
    ClimbsMeans(m.name);
    assert Waiting(w.queue + [next]) + current == Waiting(w.queue) + current + {m.source};
    if flat {
      StageOne(c, g, w.visited, w.out, Waiting(w.queue) + current, m);
      assert g.SourceOf(m.name) == Some(m.source);
    }
    assert Queued(c, g, dir, flat, next);
  }

  /** The body of the inner loop, for one specifier of the source of `cur`. */
  method VisitSpec(c: Corpus, ghost g: Graph, ghost dir: string, ghost flat: bool, cur: Work, spec: string, w: Walk)
    returns (w': Walk)
    requires flat ==> Flat(c, g, dir)
    requires WalkOk(c, g, dir, flat, w, {cur.source}) && Queued(c, g, dir, flat, cur) && spec in c.specs(cur.source)
    ensures WalkOk(c, g, dir, flat, w', {cur.source}) && w.visited <= w'.visited
    ensures w'.visited == w.visited ==> w' == w
    ensures flat ==> StagedName(c, spec) in w'.visited
  {
    var name := StagedName(c, spec);
    assert name in AllNames(c, g.source);
    if name == ".." || "../" <= name { return w; }
    if name in w.visited { return w; }
    if flat {
      var n :| Reachable(c, g, n) && g.SourceOf(n) == Some(cur.source);
      ReachableStep(c, g, n, name);
    }
    var target := c.join(cur.dir, TrimDot(spec));
    var content := ReadModule(c, target);
    if content.None? {
      if flat { VisitUnreadable(c, g, w.visited, w.out, Waiting(w.queue) + {cur.source}, name); }
      return w.(visited := w.visited + {name});
    }
    var m, next := StagedModule(name, content.value), Work(c.dirOf(target), content.value);
    WalkStages(c, g, dir, flat, w, {cur.source}, m, next);
    return Walk(w.visited + {name}, w.out + [m], w.queue + [next]);
  }

  /** The inner loop: all specifiers of the source of `cur`. */
  method ExpandSource(c: Corpus, ghost g: Graph, ghost dir: string, ghost flat: bool, cur: Work, start: Walk)
    returns (w: Walk)
    requires flat ==> Flat(c, g, dir)
    requires WalkOk(c, g, dir, flat, start, {cur.source}) && Queued(c, g, dir, flat, cur)
    ensures WalkOk(c, g, dir, flat, w, {}) && start.visited <= w.visited
    ensures w.visited == start.visited ==> w.queue == start.queue
  {
    w := start;
    var specs := c.specs(cur.source);
    var k := 0;
    while k < |specs|
      invariant 0 <= k <= |specs| && start.visited <= w.visited
      invariant w.visited == start.visited ==> w.queue == start.queue
      invariant WalkOk(c, g, dir, flat, w, {cur.source})
      invariant flat ==> Visited(c, specs, k, w.visited)
    {
      ghost var was := w.visited;
      w := VisitSpec(c, g, dir, flat, cur, specs[k], w);
      if flat { VisitedMore(c, specs, k, was, w.visited); }
      k := k + 1;
    }
    SourceDone(c, g, dir, flat, w, cur.source);
  }

  ghost predicate Visited(c: Corpus, specs: seq<string>, k: nat, visited: set<string>)
    requires k <= |specs|
  {
    forall i :: 0 <= i < k ==> StagedName(c, specs[i]) in visited
  }

  lemma {:induction false} VisitedMore(c: Corpus, specs: seq<string>, k: nat, was: set<string>, visited: set<string>)
    requires k < |specs| && Visited(c, specs, k, was) && was <= visited && StagedName(c, specs[k]) in visited
    ensures Visited(c, specs, k + 1, visited)
  {
  }

  lemma {:induction false} SourceDone(c: Corpus, g: Graph, dir: string, flat: bool, w: Walk, source: string)
    requires WalkOk(c, g, dir, flat, w, {source})
    requires flat ==> Visited(c, c.specs(source), |c.specs(source)|, w.visited)
    ensures WalkOk(c, g, dir, flat, w, {})
  {
    if flat { StopWaiting(c, g, w.visited, w.out, Waiting(w.queue), source); }
    assert Waiting(w.queue) + {} == Waiting(w.queue);
  }

  lemma {:induction false} TakeFirst(c: Corpus, g: Graph, dir: string, flat: bool, w: Walk)
    requires WalkOk(c, g, dir, flat, w, {}) && w.queue != []
    ensures Queued(c, g, dir, flat, w.queue[0])
    ensures WalkOk(c, g, dir, flat, w.(queue := w.queue[1..]), {w.queue[0].source})
  {
    WaitingFirst(w.queue);
    assert Waiting(w.queue) + {} == Waiting(w.queue[1..]) + {w.queue[0].source};
  }

  /** With nothing left in the queue, whatever is reachable and readable is staged. */
  lemma {:induction false} AllStaged(c: Corpus, g: Graph, dir: string, w: Walk, n: string)
    requires WalkOk(c, g, dir, true, w, {}) && w.queue == []
    requires n != g.entry && Reachable(c, g, n) && g.load(n).Some?
    ensures Staged(w.out, n)
  {
    assert Waiting(w.queue) + {} == {};
    var p :| IsPath(c, g, p) && p[|p| - 1] == n;
    ClosedContains(c, g, w.visited, p);
  }

  lemma {:induction false} WalkStarts(c: Corpus, g: Graph, dir: string, flat: bool)
    ensures WalkOk(c, g, dir, flat, Walk({g.entry}, [], [Work(dir, g.source)]), {})
  {
    var w := Walk({g.entry}, [], [Work(dir, g.source)]);
    assert IsPath(c, g, [g.entry]) && [g.entry][0] == g.entry && Reachable(c, g, g.entry);
    assert w.queue[0].source == g.source && g.source in Waiting(w.queue);
    assert g.SourceOf(g.entry) == Some(g.source);
  }

  /** The walk terminates on every store of files, cyclic or not, and never stages a name twice, the entry
      itself, or a name that leads out of its directory. When the specifiers are flat it stages exactly the
      readable modules reachable from the entry, each with the content its name stands for. */
  method ResolveModuleGraph(c: Corpus, dir: string, entryName: string, entrySource: string, ghost g: Graph)
    returns (out: seq<StagedModule>)
    requires g.entry == entryName && g.source == entrySource
    ensures DistinctNames(out) && !Staged(out, entryName) && AllInside(out)
    ensures Flat(c, g, dir) ==>
              Sound(c, g, out) &&
              forall n :: n != entryName && Reachable(c, g, n) && g.load(n).Some? ==> Staged(out, n)
  {
    ghost var flat := Flat(c, g, dir);
    ghost var all := AllNames(c, entrySource) + {entryName};
    WalkStarts(c, g, dir, flat);
    var w := Walk({entryName}, [], [Work(dir, entrySource)]);
    while |w.queue| > 0
      invariant WalkOk(c, g, dir, flat, w, {})
      decreases |all - w.visited|, |w.queue|
    {
      ghost var was := w;
      TakeFirst(c, g, dir, flat, w);
      var cur := w.queue[0];
      w := w.(queue := w.queue[1..]);
      w := ExpandSource(c, g, dir, flat, cur, w);
      Shrinks(all, was.visited, w.visited);
    }
    out := w.out;
    forall n | flat && n != entryName && Reachable(c, g, n) && g.load(n).Some? ensures Staged(out, n) {
      AllStaged(c, g, dir, w, n);
    }
  }

  lemma {:induction false} WaitingFirst(queue: seq<Work>)
    requires queue != []
    ensures Waiting(queue) == Waiting(queue[1..]) + {queue[0].source}
  {
    WaitingSplit(queue[0], queue[1..]);
    assert [queue[0]] + queue[1..] == queue;
  }

  lemma {:induction false} WaitingSplit(w: Work, rest: seq<Work>)
    ensures Waiting([w] + rest) == Waiting(rest) + {w.source}
  {
    forall s | s in Waiting(rest) + {w.source} ensures s in Waiting([w] + rest) {
      if s in Waiting(rest) {
        var k :| 0 <= k < |rest| && rest[k].source == s;
        assert ([w] + rest)[k + 1].source == s;
      } else {
        assert ([w] + rest)[0].source == s;
      }
    }
  }

  lemma {:induction false} WaitingMore(queue: seq<Work>, w: Work)
    ensures Waiting(queue + [w]) == Waiting(queue) + {w.source}
  {
    forall s | s in Waiting(queue) + {w.source} ensures s in Waiting(queue + [w]) {
      if s in Waiting(queue) {
        var k :| 0 <= k < |queue| && queue[k].source == s;
        assert (queue + [w])[k].source == s;
      } else {
        assert (queue + [w])[|queue|].source == s;
      }
    }
  }

  lemma {:induction false} Shrinks(all: set<string>, from: set<string>, visited: set<string>)
    requires from <= visited <= all
    ensures from != visited ==> |all - visited| < |all - from|
  {
    if from != visited {
      var n :| n in visited && n !in from;
      assert all - visited <= (all - from) - {n};
      assert |all - visited| <= |(all - from) - {n}| by { Subset(all - visited, (all - from) - {n}); }
    }
  }

  lemma {:induction false} Subset(a: set<string>, b: set<string>)
    requires a <= b
    ensures |a| <= |b|
  {
    assert |b - a| + |a| == |b| by { assert (b - a) + a == b; }
  }

  // ---------------------------------------------------------------- single-level siblings

  predicate SingleLevel(name: string) {
    '/' !in name
  }

  /** The path functions on names without a directory. */
  ghost predicate PlainPaths(c: Corpus, dir: string) {
    forall n: string :: SingleLevel(n) && HasSuffix(n, ".js") ==> c.clean(n) == n && c.dirOf(c.join(dir, n)) == dir
  }

  ghost predicate SiblingSpec(spec: string) {
    "./" <= spec && SingleLevel(spec[2..]) && HasSuffix(spec, ".js") && |spec| >= 5
  }

  /** The graph in which the name `b.ts` stands for the file the specifier `./b.js` resolves to. */
  ghost function SiblingGraph(c: Corpus, dir: string, entryName: string, source: string): Graph {
    Graph(entryName, source,
          n => if HasSuffix(n, ".ts") then ReadModule(c, c.join(dir, SwapSuffix(n, ".ts", ".js"))) else None)
  }

  lemma {:induction false} SiblingName(c: Corpus, dir: string, spec: string)
    requires PlainPaths(c, dir) && SiblingSpec(spec)
    ensures var n := StagedName(c, spec);
            HasSuffix(n, ".ts") && SwapSuffix(n, ".ts", ".js") == TrimDot(spec) && !Climbs(n) &&
            c.dirOf(c.join(dir, TrimDot(spec))) == dir
  {
    var t := TrimDot(spec);
    assert t[|t| - 3..] == spec[|spec| - 3..];
    var n := StagedName(c, spec);
    assert n == t[..|t| - 3] + ".ts" && t == t[..|t| - 3] + ".js";
    assert n[|n| - 3..] == ".ts" && n[..|n| - 3] == t[..|t| - 3];
    assert forall k :: 0 <= k < |n| ==> n[k] != '/';
    assert !("../" <= n) by { assert "../"[2] == '/'; }
    assert n != ".." by { assert |n| >= 3; }
  }

  /** When every specifier is a single-level `.js` sibling, the specifiers are flat, so the walk stages
      exactly the readable siblings reachable from the entry. */
  lemma {:induction false} SiblingsAreFlat(c: Corpus, dir: string, entryName: string, source: string)
    requires PlainPaths(c, dir)
    requires forall s, spec :: s in {source} + c.files.Values && spec in c.specs(s) ==> SiblingSpec(spec)
    ensures Flat(c, SiblingGraph(c, dir, entryName, source), dir)
  {
    var g := SiblingGraph(c, dir, entryName, source);
    forall s, spec | s in {g.source} + c.files.Values && spec in c.specs(s)
      ensures !Climbs(StagedName(c, spec)) && c.dirOf(c.join(dir, TrimDot(spec))) == dir
      ensures ReadModule(c, c.join(dir, TrimDot(spec))) == g.load(StagedName(c, spec))
    {
      SiblingName(c, dir, spec);
    }
  }

  /** stageJob: the siblings are written first, then the entry; on what the walk stages no path is
      written twice, so every file ends up with its own content. */
  method StageJob(modules: seq<StagedModule>, entry: string, source: string) returns (written: map<string, string>)
    ensures DistinctNames(modules) && !Staged(modules, entry) ==>
              (forall k :: 0 <= k < |modules| ==>
               modules[k].name in written && written[modules[k].name] == modules[k].source) &&
              |written| == |modules| + 1
    ensures entry in written && written[entry] == source
    ensures forall n :: n in written <==> n == entry || Staged(modules, n)
  {
    written := map[];
    for i := 0 to |modules|
      invariant forall n :: n in written <==> exists k :: 0 <= k < i && modules[k].name == n
      invariant DistinctNames(modules) ==>
                  |written| == i &&
                  forall k :: 0 <= k < i ==>
                    modules[k].name in written && written[modules[k].name] == modules[k].source
    {
      written := written[modules[i].name := modules[i].source];
    }
    written := written[entry := source];
  }
}
