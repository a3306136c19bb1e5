/** Runs that share the tail cache (pkg/tc39/tailcache.go, the tail branches of orchestrator.go, aot.go and
    worker.go): workers replay from whatever the file held when they loaded it, the collector streams new
    outcomes to it, and the next run, perhaps of another compiler version, goes on from what is left. */
module TailRuns {
  import opened Types
  import opened RunProtocol
  import opened VerdictCache
  import opened CacheFile
  import Keys
  import opened Aot
  import Resume

  // ---------------------------------------------------------------- what is recorded

  /** The recorded results that carry a tail key, in order. */
  function TailRecordings(log: seq<Result>): seq<Recording> {
    if log == [] then []
    else
      var n := |log| - 1;
      TailRecordings(log[..n]) + if log[n].tailKey != "" then [Recording(log[n].tailKey, log[n])] else []
  }

  /** The recording that result `m` of the log makes. */
  function TailNext(log: seq<Result>, m: nat): Option<Recording> {
    if m < |log| && log[m].tailKey != "" then Some(Recording(log[m].tailKey, log[m])) else None
  }

  /** A result is what executing one of the jobs plainly yields, tail key included. */
  ghost predicate Executed(tc: Toolchain, runtimeHash: string, jobs: seq<Job>, r: Result) {
    exists k :: 0 <= k < |jobs| && jobs[k].id == r.id && Verdict(r.status, r.error) == Plain(tc, jobs[k]) &&
      r.tailKey == ResultKey(tc, runtimeHash, true, jobs[k])
  }

  ghost function ExecutedBy(tc: Toolchain, runtimeHash: string, jobs: seq<Job>): Result -> bool {
    r => Executed(tc, runtimeHash, jobs, r)
  }

  /** The runtimes behind their fingerprints: one fingerprint, one build and one behaviour. */
  type Runtimes = string -> Runtime

  /** An entry of the tail file says, for every runtime, what building and judging say. */
  ghost predicate EntryTrue(rts: Runtimes, e: Entry) {
    forall h, g: string, j: Job {:trigger Keys.TailPreimage(g, h, j)} ::
      Keys.NulFree(h) && Keys.NulFreeJob(j) && Keys.TailPreimage(g, h, j) == e.key ==>
        Verdict(e.status, e.error) == BuildAndJudge(rts(h), g, j)
  }

  ghost function Truly(rts: Runtimes): Entry -> bool {
    e => EntryTrue(rts, e)
  }

  lemma {:induction false} KeylessIsTrue(rts: Runtimes)
    ensures forall e: Entry :: e.key == "" ==> Truly(rts)(e)
  {
    forall h, g: string, j: Job ensures Keys.TailPreimage(g, h, j) != "" { Keys.TailPreimageLong(g, h, j); }
  }

  lemma {:induction false} LoadedIsSound(rts: Runtimes, lines: seq<Line>, runtimeHash: string)
    requires AllFine(lines, Truly(rts)) && Keys.NulFree(runtimeHash)
    ensures TailSound(rts(runtimeHash), runtimeHash, Denote(lines))
  {
    LoadedFine(lines, Truly(rts));
    forall g: string, j: Job | Keys.NulFreeJob(j) && Keys.TailPreimage(g, runtimeHash, j) in Denote(lines)
      ensures var e := Denote(lines)[Keys.TailPreimage(g, runtimeHash, j)];
              Verdict(e.status, e.error) == BuildAndJudge(rts(runtimeHash), g, j)
    {
      assert Truly(rts)(Denote(lines)[Keys.TailPreimage(g, runtimeHash, j)]);
    }
  }

  /** What executing a job yields is true of every job of every version that shares its tail key. */
  lemma {:induction false} ExecutedIsTrue(rts: Runtimes, tc: Toolchain, runtimeHash: string, jobs: seq<Job>, r: Result)
    requires Fits(rts, tc, runtimeHash, jobs)
    requires Executed(tc, runtimeHash, jobs, r) && r.tailKey != ""
    ensures EntryTrue(rts, EntryOf(r.tailKey, r))
  {
    var k :| 0 <= k < |jobs| && jobs[k].id == r.id && Verdict(r.status, r.error) == Plain(tc, jobs[k]) &&
      r.tailKey == ResultKey(tc, runtimeHash, true, jobs[k]);
    var goSrc := tc.compile(jobs[k]).goSrc;
    forall h, g: string, j: Job | Keys.NulFree(h) && Keys.NulFreeJob(j) && Keys.TailPreimage(g, h, j) == r.tailKey
      ensures BuildAndJudge(rts(h), g, j) == Verdict(r.status, r.error)
    {
      Keys.TailKeyInjective(goSrc, runtimeHash, jobs[k], g, h, j);
      SameJudge(rts(h), goSrc, jobs[k], j);
    }
  }

  lemma {:induction false} LogIsTrue(rts: Runtimes, tc: Toolchain, runtimeHash: string, jobs: seq<Job>,
                                     log: seq<Result>)
    requires Fits(rts, tc, runtimeHash, jobs)
    requires forall k :: 0 <= k < |log| ==> Honest(log[k], ExecutedBy(tc, runtimeHash, jobs))
    ensures FineRecordings(TailRecordings(log), Truly(rts))
  {
    if log == [] {
    } else {
      var n := |log| - 1;
      LogIsTrue(rts, tc, runtimeHash, jobs, log[..n]);
      if log[n].tailKey != "" && Cacheable(log[n]) { ExecutedIsTrue(rts, tc, runtimeHash, jobs, log[n]); }
    }
  }

  // ---------------------------------------------------------------- one run

  /** A map a worker may have loaded, in a run on file `f` that has recorded `log`: the file as it was after
      some of the results, or while one was being written. */
  ghost predicate Loadable(f: File, log: seq<Result>, tail: map<string, Entry>)
    requires Proper(f)
  {
    exists m: nat, h :: m <= |log| && Shows(f, TailRecordings(log[..m]), TailNext(log, m), h) && tail == Denote(h.lines)
  }

  /** The answer is the outcome of ExecuteAOT, with no build cut off, on a map the worker may have loaded. */
  ghost predicate Replied(tc: Toolchain, runtimeHash: string, jobs: seq<Job>, f: File, log: seq<Result>, r: Result)
    requires Proper(f)
  {
    exists k: nat, tail :: k < |jobs| && Loadable(f, log, tail) &&
      r == Executes(tc, jobs[k], Some(tail), runtimeHash, None)
  }

  /** A run whose subprocesses execute their jobs, unless the machine gets in the way. */
  ghost predicate TailRun(tc: Toolchain, runtimeHash: string, jobs: seq<Job>, f: File, c: Config, s: Pool,
                          labels: seq<Label>, t: Pool)
    requires Proper(f)
    decreases |labels|
  {
    if labels == [] then s == t
    else
      Enabled(c, s, labels[0]) &&
      (labels[0].Sub? && labels[0].e.Reply? ==>
       Machine(labels[0].e.r) || Replied(tc, runtimeHash, jobs, f, s.record.log, labels[0].e.r)) &&
      TailRun(tc, runtimeHash, jobs, f, c, Apply(c, s, labels[0]), labels[1..], t)
  }

  /** The jobs, their versions' toolchain and the runtime fit together. */
  ghost predicate Fits(rts: Runtimes, tc: Toolchain, runtimeHash: string, jobs: seq<Job>) {
    Keys.NulFree(runtimeHash) && tc.runtime == rts(runtimeHash) &&
    forall k :: 0 <= k < |jobs| ==> Keys.NulFreeJob(jobs[k])
  }

  lemma {:induction false} LoadableIsSound(rts: Runtimes, tc: Toolchain, runtimeHash: string, jobs: seq<Job>, f: File,
                                           log: seq<Result>, tail: map<string, Entry>)
    requires Fits(rts, tc, runtimeHash, jobs) && Proper(f) && AllFine(f.lines, Truly(rts)) && Loadable(f, log, tail)
    requires forall k :: 0 <= k < |log| ==> Honest(log[k], ExecutedBy(tc, runtimeHash, jobs))
    ensures TailSound(tc.runtime, runtimeHash, tail)
  {
    var m: nat, h :| m <= |log| && Shows(f, TailRecordings(log[..m]), TailNext(log, m), h) && tail == Denote(h.lines);
    LogIsTrue(rts, tc, runtimeHash, jobs, log[..m]);
    if TailNext(log, m).Some? && Cacheable(log[m]) { ExecutedIsTrue(rts, tc, runtimeHash, jobs, log[m]); }
    ShowsFine(f, TailRecordings(log[..m]), TailNext(log, m), h, Truly(rts));
    LoadedIsSound(rts, h.lines, runtimeHash);
  }

  lemma {:induction false} ReplyIsPlain(rts: Runtimes, tc: Toolchain, runtimeHash: string, jobs: seq<Job>, f: File,
                                        log: seq<Result>, r: Result)
    requires Fits(rts, tc, runtimeHash, jobs) && Proper(f) && AllFine(f.lines, Truly(rts))
    requires Replied(tc, runtimeHash, jobs, f, log, r)
    requires forall k :: 0 <= k < |log| ==> Honest(log[k], ExecutedBy(tc, runtimeHash, jobs))
    ensures Executed(tc, runtimeHash, jobs, r)
  {
    var k: nat, tail :| k < |jobs| && Loadable(f, log, tail) &&
      r == Executes(tc, jobs[k], Some(tail), runtimeHash, None);
    LoadableIsSound(rts, tc, runtimeHash, jobs, f, log, tail);
    ExecutesPlain(tc, jobs[k], Some(tail), runtimeHash);
  }

  /** In a run on a true file every recorded result, replayed or not, is what executing its job plainly
      yields, or the machine's fault. */
  lemma {:induction false} TailRunIsHonest(rts: Runtimes, tc: Toolchain, runtimeHash: string, jobs: seq<Job>, f: File,
                                           c: Config, s: Pool, labels: seq<Label>, t: Pool)
    requires Fits(rts, tc, runtimeHash, jobs) && Proper(f) && AllFine(f.lines, Truly(rts))
    requires TailRun(tc, runtimeHash, jobs, f, c, s, labels, t) && HonestOk(s, ExecutedBy(tc, runtimeHash, jobs))
    ensures HonestOk(t, ExecutedBy(tc, runtimeHash, jobs)) && Runs(c, s, labels, t)
    ensures forall k :: 0 <= k < |labels| ==> HonestLabel(labels[k], ExecutedBy(tc, runtimeHash, jobs))
    decreases |labels|
  {
    if labels == [] {
    } else {
      var l := labels[0];
      if l.Sub? && l.e.Reply? && !Machine(l.e.r) {
        ReplyIsPlain(rts, tc, runtimeHash, jobs, f, s.record.log, l.e.r);
      }
      HonestKept(c, s, l, ExecutedBy(tc, runtimeHash, jobs));
      TailRunIsHonest(rts, tc, runtimeHash, jobs, f, c, Apply(c, s, l), labels[1..], t);
      forall k | 0 <= k < |labels| ensures HonestLabel(labels[k], ExecutedBy(tc, runtimeHash, jobs)) {
        if k > 0 { assert labels[1..][k - 1] == labels[k]; }
      }
    }
  }

  // ---------------------------------------------------------------- chains of runs

  /** One run: its toolchain and runtime, its jobs and pool options, its steps and end, how many of the
      recorded results had been looked at for the tail cache by then, and the tail file it leaves. */
  datatype TailLink = TailLink(tc: Toolchain, runtimeHash: string, jobs: seq<Job>, c: Config, labels: seq<Label>,
                               end: Pool, puts: nat, left: File)

  /** The run loaded file `f` and may have ended in any way. */
  ghost predicate GoodTailLink(rts: Runtimes, f: File, l: TailLink) {
    Fits(rts, l.tc, l.runtimeHash, l.jobs) && Proper(f) && l.puts <= |l.end.record.log| &&
    TailRun(l.tc, l.runtimeHash, l.jobs, f, l.c, Init(l.c), l.labels, l.end) &&
    Leaves(f, TailRecordings(l.end.record.log[..l.puts]), TailNext(l.end.record.log, l.puts), l.left)
  }

  function TailBefore(f: File, links: seq<TailLink>, n: nat): File
    requires n <= |links|
  {
    if n == 0 then f else links[n - 1].left
  }

  ghost predicate TailChain(rts: Runtimes, f: File, links: seq<TailLink>) {
    forall n {:trigger TailBefore(f, links, n)} :: 0 <= n < |links| ==>
      GoodTailLink(rts, TailBefore(f, links, n), links[n])
  }

  lemma {:induction false} TailLinkIsTrue(rts: Runtimes, f: File, l: TailLink)
    requires GoodTailLink(rts, f, l) && AllFine(f.lines, Truly(rts))
    ensures AllFine(l.left.lines, Truly(rts))
    ensures forall k :: 0 <= k < |l.end.record.log| ==>
              Honest(l.end.record.log[k], ExecutedBy(l.tc, l.runtimeHash, l.jobs))
  {
    var log := l.end.record.log;
    TailRunIsHonest(rts, l.tc, l.runtimeHash, l.jobs, f, l.c, Init(l.c), l.labels, l.end);
    LogIsTrue(rts, l.tc, l.runtimeHash, l.jobs, log[..l.puts]);
    if TailNext(log, l.puts).Some? && Cacheable(log[l.puts]) {
      ExecutedIsTrue(rts, l.tc, l.runtimeHash, l.jobs, log[l.puts]);
    }
    KeylessIsTrue(rts);
    LeavesFine(f, TailRecordings(log[..l.puts]), TailNext(log, l.puts), l.left, Truly(rts));
  }

  /** In every chain of runs that share a tail file, of whatever compiler versions and runtimes, each
      aborted, killed between two writes or within one, or saved: every file says only what building and
      judging say, and every recorded result is its job's plain verdict, or the machine's fault. */
  lemma {:induction false} TailChainIsTrue(rts: Runtimes, f: File, links: seq<TailLink>, n: nat)
    requires TailChain(rts, f, links) && AllFine(f.lines, Truly(rts)) && n <= |links|
    ensures AllFine(TailBefore(f, links, n).lines, Truly(rts))
    ensures forall m, k :: 0 <= m < n && 0 <= k < |links[m].end.record.log| ==>
              Honest(links[m].end.record.log[k], ExecutedBy(links[m].tc, links[m].runtimeHash, links[m].jobs))
  {
    if n == 0 {
    } else {
      TailChainIsTrue(rts, f, links, n - 1);
      TailLinkIsTrue(rts, TailBefore(f, links, n - 1), links[n - 1]);
    }
  }

  // ---------------------------------------------------------------- what stays recorded

  lemma {:induction false} TailRecorded(log: seq<Result>, k: nat) returns (i: nat)
    requires k < |log| && log[k].tailKey != ""
    ensures i < |TailRecordings(log)| && TailRecordings(log)[i] == Recording(log[k].tailKey, log[k])
  {
    var n := |log| - 1;
    if k < n {
      i := TailRecorded(log[..n], k);
    } else {
      i := |TailRecordings(log[..n])|;
    }
  }

  lemma {:induction false} TailKeyed(log: seq<Result>)
    ensures forall i :: 0 <= i < |TailRecordings(log)| ==> TailRecordings(log)[i].key != ""
  {
    if log != [] { TailKeyed(log[..|log| - 1]); }
  }

  lemma {:induction false} PutAllHas(entries: map<string, Entry>, recs: seq<Recording>, i: nat)
    requires i < |recs| && recs[i].r.status != "timeout" && recs[i].r.status != "crash"
    ensures recs[i].key in PutAll(entries, recs)
  {
    assert recs[..i + 1][..i] == recs[..i];
    PutAllGrows(entries, recs, i + 1, recs[i].key);
  }

  /** A run on a whole file leaves on it the key of every result it recorded with a tail key, but for timeouts and
      crashes, however it ends. */
  lemma {:induction false} TailIsKept(rts: Runtimes, f: File, l: TailLink, k: nat)
    requires GoodTailLink(rts, f, l) && !f.torn && k < l.puts && l.end.record.log[k].tailKey != ""
    requires l.end.record.log[k].status != "timeout" && l.end.record.log[k].status != "crash"
    ensures OnFile(l.left, l.end.record.log[k].tailKey)
  {
    var log := l.end.record.log;
    var recs := TailRecordings(log[..l.puts]);
    var i := TailRecorded(log[..l.puts], k);
    TailKeyed(log[..l.puts]);
    PutAllHas(Denote(f.lines), recs, i);
    StreamRefines(f, recs);
    LoadedIsHeld(Streamed(f, recs), log[k].tailKey);
    HoldsLeft(f, recs, TailNext(log, l.puts), l.left, log[k].tailKey);
  }

  lemma {:induction false} TailStays(rts: Runtimes, f: File, links: seq<TailLink>, m: nat, n: nat, key: string)
    requires TailChain(rts, f, links) && m <= n <= |links| && OnFile(TailBefore(f, links, m), key)
    ensures OnFile(TailBefore(f, links, n), key)
    decreases n
  {
    if m < n {
      TailStays(rts, f, links, m, n - 1, key);
      var was, l := TailBefore(f, links, n - 1), links[n - 1];
      assert GoodTailLink(rts, was, l);
      HeldStays(was, TailRecordings(l.end.record.log[..l.puts]), TailNext(l.end.record.log, l.puts), l.left, key);
    }
  }

  /** And every later run of the chain loads it. */
  lemma {:induction false} TailIsReplayed(rts: Runtimes, f: File, links: seq<TailLink>, m: nat, n: nat, k: nat)
    requires TailChain(rts, f, links) && m < n <= |links| && !TailBefore(f, links, m).torn
    requires var log := links[m].end.record.log;
             k < links[m].puts <= |log| && log[k].tailKey != "" &&
             log[k].status != "timeout" && log[k].status != "crash"
    ensures links[m].end.record.log[k].tailKey in Denote(TailBefore(f, links, n).lines)
  {
    var key := links[m].end.record.log[k].tailKey;
    assert GoodTailLink(rts, TailBefore(f, links, m), links[m]);
    TailIsKept(rts, TailBefore(f, links, m), links[m], k);
    TailStays(rts, f, links, m + 1, n, key);
    HeldIsLoaded(TailBefore(f, links, n), key);
  }

  // ---------------------------------------------------------------- both caches

  /** The judge a family of compiler versions makes: executing a job plainly under its version. */
  ghost function PlainJudge(versions: string -> Toolchain): Resume.Judge {
    (j, v) => Plain(versions(v), j)
  }

  lemma {:induction false} HonestlyRight(versions: string -> Toolchain, runtimeHash: string, s: Resume.Session,
                                         l: Label)
    requires HonestLabel(l, ExecutedBy(versions(s.version), runtimeHash, s.jobs))
    ensures HonestLabel(l, Resume.RightOf(PlainJudge(versions), s))
  {
    if l.Sub? && l.e.Reply? && !Machine(l.e.r) {
      var r := l.e.r;
      assert Executed(versions(s.version), runtimeHash, s.jobs, r);
      var k :| 0 <= k < |s.jobs| && s.jobs[k].id == r.id &&
        Verdict(r.status, r.error) == Plain(versions(s.version), s.jobs[k]);
      assert Verdict(r.status, r.error) == PlainJudge(versions)(s.jobs[k], s.version);
    }
  }

  /** A run of ExecuteAOT workers on a true tail file is a run as the results cache wants it: with the plain
      verdicts for a judge, every subprocess answers right. */
  lemma {:induction false} TailRunHappened(rts: Runtimes, versions: string -> Toolchain, runtimeHash: string, f: File,
                                          entries: map<string, Entry>, s: Resume.Session, labels: seq<Label>)
    requires Fits(rts, versions(s.version), runtimeHash, s.jobs) && Proper(f) && AllFine(f.lines, Truly(rts))
    requires Resume.DistinctIds(s.jobs) && Keys.NulFree(s.version) && s.options.workers > 0
    requires s.puts <= |s.end.record.log|
    requires var c := Resume.ConfigOf(entries, s);
             TailRun(versions(s.version), runtimeHash, s.jobs, f, c, Init(c), labels, s.end)
    ensures Resume.Happened(PlainJudge(versions), entries, s)
  {
    var c := Resume.ConfigOf(entries, s);
    TailRunIsHonest(rts, versions(s.version), runtimeHash, s.jobs, f, c, Init(c), labels, s.end);
    forall k | 0 <= k < |labels| ensures HonestLabel(labels[k], Resume.RightOf(PlainJudge(versions), s)) {
      HonestlyRight(versions, runtimeHash, s, labels[k]);
    }
  }

  /** A build that the deadline cut off is also recorded in the results cache, which stays sound exactly if
      the program fails to build in just that way anyway. */
  lemma {:induction false} CutOffReachesResults(corpus: set<Job>, versions: string -> Toolchain,
                                                entries: map<string, Entry>, j: Job, version: string,
                                                tail: Option<map<string, Entry>>, runtimeHash: string, msg: string)
    requires Resume.Pinned(corpus) && j in corpus && Keys.NulFree(version)
    requires Resume.SoundFor(corpus, PlainJudge(versions), entries) && !Resume.Cached(entries, version, j)
    requires versions(version).stage(j).None? && versions(version).compile(j).Emitted?
    requires tail.Some? ==> ResultKey(versions(version), runtimeHash, true, j) !in tail.value
    ensures var r := Executes(versions(version), j, tail, runtimeHash, Some(msg));
            r.status == "fail" && Cacheable(r) &&
            (Resume.SoundFor(corpus, PlainJudge(versions), WithResult(entries, Keys.JobPreimage(j, version), r)) <==>
             Plain(versions(version), j) == FailedBuild(msg))
  {
    var r := Executes(versions(version), j, tail, runtimeHash, Some(msg));
    assert r.status == "fail" && r.status[0] == 'f';
    Resume.StaysSoundIff(corpus, PlainJudge(versions), entries, j, version, r);
  }
}
