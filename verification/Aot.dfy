/** The verdict of one job (pkg/tc39/aot.go, ExecuteAOT and judgeRun) over an abstract toolchain, with
    the replay of recorded outcomes from the tail cache (pkg/tc39/tailcache.go). */
module Aot {
  import opened Types
  import opened Strings
  import Keys
  import opened VerdictCache

  datatype Compiled =
    | Emitted(goSrc: string) | NotLowerable(reason: string) | Rejected(msg: string) | Panicked(msg: string)

  datatype Built = Binary(bin: string) | BuildFailed(msg: string)

  /** One run of a binary: whether it overran its budget, the error of a failed exit, and its output. */
  datatype Ran = Ran(timedOut: bool, failure: Option<string>, stdout: string, stderr: string)

  /** What the Go toolchain makes of emitted Go, given the time it needs, and what a binary does. */
  datatype Runtime = Runtime(build: string -> Built, run: string -> Ran)

  /** Staging, the compiler, and the runtime of the staged module root, as functions; staging yields an
      error or nothing. The path of the scratch directory is already folded out of compiler messages. */
  datatype Toolchain = Toolchain(stage: Job -> Option<string>, compile: Job -> Compiled, runtime: Runtime)

  const ASYNC_DONE := "Test262:AsyncTestComplete"

  datatype Verdict = Verdict(status: string, error: string)

  predicate IsEarly(j: Job) {
    j.negType != "" && (j.negPhase == "parse" || j.negPhase == "resolution")
  }

  /** judgeRun */
  method JudgeRun(j: Job, out: Ran) returns (res: Result)
    ensures res.id == j.id && res.tailKey == ""
    ensures Verdict(res.status, res.error) == Judged(j, out)
  {
    res := Result(j.id, "", "", "");
    if out.timedOut {
      return res.(status := "timeout");
    }
    if j.negType != "" {
      var combined := out.stdout + out.stderr;
      if out.failure.None? {
        res := res.(status := "fail", error := "expected " + j.negType + " during " + j.negPhase + ", exited clean");
      } else if !Contains(combined, j.negType) {
        res := res.(status := "fail", error := "expected " + j.negType + ", got: " + FirstLine(Trim(combined)));
      } else {
        res := res.(status := "pass");
      }
      return;
    }
    if out.failure.Some? {
      res := res.(status := "fail");
      var msg := FirstLine(Trim(out.stderr));
      if msg == "" {
        msg := out.failure.value;
      }
      return res.(error := msg);
    }
    if j.async && !Contains(out.stdout, ASYNC_DONE) {
      return res.(status := "fail", error := "async test exited without " + ASYNC_DONE);
    }
    res := res.(status := "pass");
  }

  function Judged(j: Job, out: Ran): Verdict {
    if out.timedOut then Verdict("timeout", "")
    else if j.negType != "" then
      if out.failure.None? then Verdict("fail", "expected " + j.negType + " during " + j.negPhase + ", exited clean")
      else if Contains(out.stdout + out.stderr, j.negType) then Verdict("pass", "")
      else Verdict("fail", "expected " + j.negType + ", got: " + FirstLine(Trim(out.stdout + out.stderr)))
    else if out.failure.Some? then
      var msg := FirstLine(Trim(out.stderr));
      Verdict("fail", if msg == "" then out.failure.value else msg)
    else if j.async && !Contains(out.stdout, ASYNC_DONE) then Verdict("fail", "async test exited without " + ASYNC_DONE)
    else Verdict("pass", "")
  }

  /** The verdict on emitted Go: build it, run the binary, judge the run. */
  function BuildAndJudge(rt: Runtime, goSrc: string, j: Job): Verdict {
    match rt.build(goSrc)
    case BuildFailed(msg) => FailedBuild(msg)
    case Binary(bin) => Judged(j, rt.run(bin))
  }

  function FailedBuild(msg: string): Verdict {
    Verdict("fail", "gobuild: " + DiagLine(msg))
  }

  /** The verdict of a job with no cache in the way. */
  function Plain(tc: Toolchain, j: Job): Verdict {
    match tc.stage(j)
    case Some(err) => Verdict("crash", err)
    case None =>
      match tc.compile(j)
      case Panicked(msg) => Verdict("crash", "panic: " + msg)
      case NotLowerable(reason) => Verdict("handback", "lower: " + reason)
      case Rejected(msg) => if IsEarly(j) then Verdict("pass", "") else Verdict("handback", "front: " + FirstLine(msg))
      case Emitted(goSrc) => BuildAndJudge(tc.runtime, goSrc, j)
  }

  /** The tail-cache entry under every key of this runtime is what building and judging would say. */
  ghost predicate TailSound(rt: Runtime, runtimeHash: string, tail: map<string, Entry>) {
    forall g: string, j: Job {:trigger Keys.TailPreimage(g, runtimeHash, j)} ::
      Keys.NulFreeJob(j) && Keys.TailPreimage(g, runtimeHash, j) in tail ==>
      var e := tail[Keys.TailPreimage(g, runtimeHash, j)];
      Verdict(e.status, e.error) == BuildAndJudge(rt, g, j)
  }

  /** The key a job's result travels back under: set once Go was emitted and a tail cache is in use. */
  function ResultKey(tc: Toolchain, runtimeHash: string, useTail: bool, j: Job): string {
    if useTail && tc.stage(j).None? && tc.compile(j).Emitted? then
      Keys.TailPreimage(tc.compile(j).goSrc, runtimeHash, j)
    else ""
  }

  /** The result of executing a job. `cut` is the message of the build if its deadline cut it off. */
  function Executes(tc: Toolchain, j: Job, tail: Option<map<string, Entry>>, runtimeHash: string,
                    cut: Option<string>): Result {
    var key := ResultKey(tc, runtimeHash, tail.Some?, j);
    var v :=
      if tail.Some? && key != "" && key in tail.value then Verdict(tail.value[key].status, tail.value[key].error)
      else if cut.Some? && tc.stage(j).None? && tc.compile(j).Emitted? then FailedBuild(cut.value)
      else Plain(tc, j);
    Result(j.id, v.status, v.error, key)
  }

  /** ExecuteAOT. The result is the recorded one if the tail cache holds the job's key, else the failed
      build if its deadline cut it off, else the plain verdict. */
  method ExecuteAOT(tc: Toolchain, j: Job, tail: Option<map<string, Entry>>, runtimeHash: string, cut: Option<string>)
    returns (res: Result)
    ensures res == Executes(tc, j, tail, runtimeHash, cut)
  {
    res := Result(j.id, "", "", "");
    var err := tc.stage(j);
    if err.Some? {
      return res.(status := "crash", error := err.value);
    }
    var compiled := tc.compile(j);
    if compiled.Panicked? {
      return res.(status := "crash", error := "panic: " + compiled.msg);
    }
    if !compiled.Emitted? {
      if compiled.NotLowerable? {
        return res.(status := "handback", error := "lower: " + compiled.reason);
      }
      if j.negType != "" && (j.negPhase == "parse" || j.negPhase == "resolution") {
        return res.(status := "pass");
      }
      return res.(status := "handback", error := "front: " + FirstLine(compiled.msg));
    }
    var goSrc := compiled.goSrc;
    Keys.TailPreimageLong(goSrc, runtimeHash, j);
    if tail.Some? {
      var key := Keys.TailKey(goSrc, runtimeHash, j);
      res := res.(tailKey := key);
      if key in tail.value {
        return Result(j.id, tail.value[key].status, tail.value[key].error, key);
      }
    }
    var built := if cut.Some? then BuildFailed(cut.value) else tc.runtime.build(goSrc);
    if built.BuildFailed? {
      return res.(status := "fail", error := "gobuild: " + DiagLine(built.msg));
    }
    var judged := JudgeRun(j, tc.runtime.run(built.bin));
    return judged.(tailKey := res.tailKey);
  }

  /** Unless its build was cut off, executing a job gives its plain verdict, whether it was built and
      judged or replayed from a sound tail cache. */
  lemma {:induction false} ExecutesPlain(tc: Toolchain, j: Job, tail: Option<map<string, Entry>>, runtimeHash: string)
    requires Keys.NulFreeJob(j) && (tail.Some? ==> TailSound(tc.runtime, runtimeHash, tail.value))
    ensures var r := Executes(tc, j, tail, runtimeHash, None); Verdict(r.status, r.error) == Plain(tc, j)
  {
  }

  /** Recording an outcome under its tail key keeps the tail cache sound exactly when it is what building
      and judging say, for every other job that shares the key has the same emitted Go and the same
      judge. */
  lemma {:induction false} TailStaysSoundIff(rt: Runtime, runtimeHash: string, tail: map<string, Entry>, goSrc: string,
                                             j: Job, r: Result)
    requires Keys.NulFree(runtimeHash) && Keys.NulFreeJob(j) && TailSound(rt, runtimeHash, tail)
    requires r.status != "timeout" && r.status != "crash" && Keys.TailPreimage(goSrc, runtimeHash, j) !in tail
    ensures TailSound(rt, runtimeHash, WithResult(tail, Keys.TailPreimage(goSrc, runtimeHash, j), r)) <==>
            Verdict(r.status, r.error) == BuildAndJudge(rt, goSrc, j)
  {
    var key := Keys.TailPreimage(goSrc, runtimeHash, j);
    var more := WithResult(tail, key, r);
    assert more[key] == EntryOf(key, r);
    forall g: string, k: Job | Keys.NulFreeJob(k) && Keys.TailPreimage(g, runtimeHash, k) == key
      ensures BuildAndJudge(rt, g, k) == BuildAndJudge(rt, goSrc, j)
    {
      Keys.TailKeyInjective(goSrc, runtimeHash, j, g, runtimeHash, k);
      SameJudge(rt, goSrc, j, k);
    }
  }

  lemma {:induction false} SameJudge(rt: Runtime, goSrc: string, j: Job, k: Job)
    requires j.negType == k.negType && j.negPhase == k.negPhase && j.async == k.async
    ensures BuildAndJudge(rt, goSrc, j) == BuildAndJudge(rt, goSrc, k)
  {
  }

  /** A build that the deadline cut off is recorded as the program's own failure, which
      unlike a timeout is cached: the tail cache, which replays it from then on, stays sound exactly if the
      program fails to build in just that way anyway. */
  lemma {:induction false} CutOffIsRecorded(tc: Toolchain, runtimeHash: string, tail: map<string, Entry>, j: Job,
                                            msg: string)
    requires Keys.NulFree(runtimeHash) && Keys.NulFreeJob(j) && TailSound(tc.runtime, runtimeHash, tail)
    requires tc.stage(j).None? && tc.compile(j).Emitted? && ResultKey(tc, runtimeHash, true, j) !in tail
    ensures var r := Executes(tc, j, Some(tail), runtimeHash, Some(msg));
            r.status == "fail" && Cacheable(r) &&
            (TailSound(tc.runtime, runtimeHash, WithResult(tail, r.tailKey, r)) <==> Plain(tc, j) == FailedBuild(msg))
  {
    var r := Executes(tc, j, Some(tail), runtimeHash, Some(msg));
    assert r.status == "fail" && r.status[0] == 'f';
    TailStaysSoundIff(tc.runtime, runtimeHash, tail, tc.compile(j).goSrc, j, r);
  }

  /** What counts as a pass for a run: a negative test must die mentioning its error, any other exit
      clean, an async one after its completion line. */
  predicate RunPasses(j: Job, out: Ran) {
    !out.timedOut &&
    if j.negType != "" then out.failure.Some? && Contains(out.stdout + out.stderr, j.negType)
    else out.failure.None? && (j.async ==> Contains(out.stdout, ASYNC_DONE))
  }

  /** The outcome of the run of the job's binary, if the job got that far. */
  function Outcome(tc: Toolchain, j: Job): Option<Ran> {
    if tc.stage(j).Some? || !tc.compile(j).Emitted? then None
    else
      match tc.runtime.build(tc.compile(j).goSrc)
      case BuildFailed(_) => None
      case Binary(bin) => Some(tc.runtime.run(bin))
  }

  predicate Unbuildable(tc: Toolchain, j: Job) {
    tc.stage(j).None? && tc.compile(j).Emitted? && tc.runtime.build(tc.compile(j).goSrc).BuildFailed?
  }

  /** The test expects an error before it runs. */
  predicate ExpectsEarlyError(j: Job) {
    j.negType != "" && j.negPhase in {"parse", "resolution"}
  }

  predicate RejectedEarly(tc: Toolchain, j: Job) {
    tc.stage(j).None? && tc.compile(j).Rejected? && ExpectsEarlyError(j)
  }

  predicate Declined(tc: Toolchain, j: Job) {
    tc.stage(j).None? && (tc.compile(j).NotLowerable? || (tc.compile(j).Rejected? && !ExpectsEarlyError(j)))
  }

  /** What the statuses mean. A job passes iff its binary behaved as the test demands, or the test demands
      an early error and the front end rejected it other than for a gap in the lowerer. It fails iff emitted
      Go did not build, or its binary misbehaved in time. It is handed back iff the compiler declined it,
      and times out iff its binary ran too long. */
  lemma {:induction false} StatusesMean(tc: Toolchain, j: Job)
    ensures var status, ran := Plain(tc, j).status, Outcome(tc, j);
            (status == "pass" <==> RejectedEarly(tc, j) || (ran.Some? && RunPasses(j, ran.value))) &&
            (status == "fail" <==>
             Unbuildable(tc, j) || (ran.Some? && !ran.value.timedOut && !RunPasses(j, ran.value))) &&
            (status == "handback" <==> Declined(tc, j)) &&
            (status == "timeout" <==> ran.Some? && ran.value.timedOut)
  {
  }

  /** The key a result carries, and when its verdict is not the plain one: a job that comes to emitted Go, with a
      tail cache in use, carries the key of that Go; it is a replay if the cache holds the key, and else, if its
      build was cut off, a failed build. */
  lemma {:induction false} ExecutesMeans(tc: Toolchain, j: Job, tail: Option<map<string, Entry>>, runtimeHash: string,
                                         cut: Option<string>)
    ensures var r := Executes(tc, j, tail, runtimeHash, cut);
            var emitted := tc.stage(j) == None && tc.compile(j).Emitted?;
            r.id == j.id &&
            (tail == None || !emitted ==> r.tailKey == "") &&
            (tail != None && emitted ==> r.tailKey == Keys.TailPreimage(tc.compile(j).goSrc, runtimeHash, j)) &&
            (tail != None && emitted && r.tailKey in tail.value ==>
               r.status == tail.value[r.tailKey].status && r.error == tail.value[r.tailKey].error) &&
            (emitted && (tail == None || r.tailKey !in tail.value) && cut != None ==>
               r.status == "fail" && r.error == "gobuild: " + DiagLine(cut.value)) &&
            (!emitted || (cut == None && (tail == None || r.tailKey !in tail.value)) ==>
               Verdict(r.status, r.error) == Plain(tc, j))
  {
    if tc.compile(j).Emitted? { Keys.TailPreimageLong(tc.compile(j).goSrc, runtimeHash, j); }
  }

  /** A job crashes iff staging or the compiler fails, and in either case the error is theirs. */
  lemma {:induction false} CrashesMean(tc: Toolchain, j: Job)
    ensures Plain(tc, j).status == "crash" <==> tc.stage(j).Some? || tc.compile(j).Panicked?
    ensures tc.stage(j).Some? ==> Plain(tc, j).error == tc.stage(j).value
    ensures tc.stage(j).None? && tc.compile(j).Panicked? ==> Plain(tc, j).error == "panic: " + tc.compile(j).msg
  {
  }

  /** What the error of a job that neither crashes nor runs says. */
  lemma {:induction false} ErrorsMean(tc: Toolchain, j: Job)
    requires tc.stage(j).None?
    ensures tc.compile(j).NotLowerable? ==> Plain(tc, j).error == "lower: " + tc.compile(j).reason
    ensures tc.compile(j).Rejected? && Plain(tc, j).status == "handback" ==>
              Plain(tc, j).error == "front: " + FirstLine(tc.compile(j).msg)
    ensures Unbuildable(tc, j) ==>
              Plain(tc, j).error == "gobuild: " + DiagLine(tc.runtime.build(tc.compile(j).goSrc).msg)
    ensures Plain(tc, j).status == "pass" || Plain(tc, j).status == "timeout" ==> Plain(tc, j).error == ""
  {
  }

  /** What the error of a run that fails says: that a negative test exited clean, or died of something else, or
      the first line a failing program wrote to its standard error, or, if it wrote none, how it exited, or
      that an async test never printed its completion line. */
  lemma {:induction false} FailuresSay(j: Job, out: Ran)
    requires Judged(j, out).status == "fail"
    ensures var error := Judged(j, out).error;
            var said := FirstLine(Trim(out.stderr));
            !out.timedOut &&
            (j.negType != "" && out.failure.None? ==>
               error == "expected " + j.negType + " during " + j.negPhase + ", exited clean") &&
            (j.negType != "" && out.failure.Some? ==>
               !Contains(out.stdout + out.stderr, j.negType) &&
               error == "expected " + j.negType + ", got: " + FirstLine(Trim(out.stdout + out.stderr))) &&
            (j.negType == "" && out.failure.Some? ==> error == if said == "" then out.failure.value else said) &&
            (j.negType == "" && out.failure.None? ==>
               j.async && !Contains(out.stdout, "Test262:AsyncTestComplete") &&
               error == "async test exited without Test262:AsyncTestComplete")
  {
    assert "async test exited without " + "Test262:AsyncTestComplete" ==
           "async test exited without Test262:AsyncTestComplete";
  }
}
