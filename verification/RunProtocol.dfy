/** The run protocol (pkg/tc39/orchestrator.go and the loop of pkg/tc39/worker.go) as a labelled
    transition system: a feeder, workers, their subprocesses and a collector over two unbuffered
    channels, the shared in-flight map, and a logical clock. One step is one atomic action of one
    actor; an unbuffered send and its receive are one step. */
module RunProtocol {
  import opened Types

  type ProcId = nat

  /** `todo` holds the IDs of the jobs to run; `abortable` says whether the run has an abort signal.
      `capacity` is how much an unread pipe to a subprocess holds, and `line` the length of a job's
      request line, or nothing if the job does not marshal. */
  datatype Config = Config(todo: seq<JobId>, workers: nat, maxJobs: nat, abortable: bool, capacity: nat,
                           line: JobId -> Option<nat>)

  predicate ValidConfig(c: Config) {
    c.workers > 0 && forall a, b :: 0 <= a < b < |c.todo| ==> c.todo[a] != c.todo[b]
  }

  /** A subprocess: whether it lives and sits in its read loop, unread request lines, the job it executes,
      unread answer lines. */
  datatype Proc = Proc(alive: bool, listening: bool, inbox: seq<JobId>, running: Option<JobId>, outbox: seq<Result>)

  /** Where a worker goroutine is. */
  datatype Phase =
    | Receiving
    | Got(job: JobId)
    | Ready(job: JobId)
    | Stamped(job: JobId, at: nat)
    | Stored(job: JobId)
    | Waiting(job: JobId)
    | Answered(job: JobId, res: Result, ok: bool)
    | Deleted(job: JobId, res: Result, ok: bool)
    | Offering(res: Result)
    | Exited

  datatype Worker = Worker(phase: Phase, proc: Option<ProcId>, served: nat)

  datatype Feeder = Feeding | Draining | Finished

  /** The two channels' ends: how far the feeder got, whether each channel is still open, and whether
      the collector still receives. */
  datatype Channels = Channels(feeder: Feeder, fed: nat, jobOpen: bool, resOpen: bool, collecting: bool)

  /** The subprocesses, and a history of the jobs written to each, which the program does not read. */
  datatype Pipes = Pipes(procs: map<ProcId, Proc>, sent: map<ProcId, seq<JobId>>)

  /** The shared in-flight map, and a history of when each job was stored in it. */
  datatype Flight = Flight(inflight: map<JobId, nat>, startedAt: map<JobId, nat>)

  /** The recorded results, and the order they were recorded in. */
  datatype Record = Record(results: map<JobId, Result>, log: seq<Result>)

  datatype Pool = Pool(clock: nat, aborted: bool, chans: Channels, workers: seq<Worker>, pipes: Pipes, flight: Flight,
                       record: Record)

  /** One iteration of the feeder's loop, or its two closes. */
  datatype FeederStep = Feed(receiver: nat) | FeedAbort | CloseJobs | CloseResults

  /** One action of a worker goroutine, in the order of its loop body. */
  datatype Action =
    | Exit | Spawn(p: ProcId) | SpawnFail | Reuse
    | Stamp | Store
    | Write | WriteFail | MarshalFail
    | Answer | Broken | Expire
    | Delete | Settle | Deliver

  /** What a subprocess does: enter its read loop, take a request line, answer it, or die at any moment. */
  datatype Event = Listen | Read | Reply(r: Result) | Die

  datatype Label = Feeder(f: FeederStep) | Work(w: nat, a: Action) | Stop | Sub(p: ProcId, e: Event) | Abort | Tick

  /** The steps of feeder, workers and collector. */
  predicate IsPoolStep(l: Label) {
    l.Feeder? || l.Work? || l.Stop?
  }

  function Init(c: Config): Pool {
    Pool(0, false, Channels(Feeding, 0, true, true, true), seq(c.workers, _ => Worker(Receiving, None, 0)),
         Pipes(map[], map[]), Flight(map[], map[]), Record(map[], []))
  }

  function CrashResult(job: JobId): Result {
    Result(job, "crash", "", "")
  }

  predicate AllExited(workers: seq<Worker>) {
    forall w :: 0 <= w < |workers| ==> workers[w].phase.Exited?
  }

  predicate FeederEnabled(c: Config, s: Pool, f: FeederStep) {
    match f
    case Feed(w) =>
      s.chans.feeder.Feeding? && s.chans.fed < |c.todo| && w < |s.workers| && s.workers[w].phase.Receiving?
    case FeedAbort => s.chans.feeder.Feeding? && s.chans.fed < |c.todo| && c.abortable && s.aborted
    case CloseJobs => s.chans.feeder.Feeding? && s.chans.fed == |c.todo|
    case CloseResults => s.chans.feeder.Draining? && AllExited(s.workers)
  }

  function FeederApply(c: Config, s: Pool, f: FeederStep): Pool
    requires FeederEnabled(c, s, f)
  {
    match f
    case Feed(w) =>
      s.(workers := s.workers[w := s.workers[w].(phase := Got(c.todo[s.chans.fed]))],
         chans := s.chans.(fed := s.chans.fed + 1))
    case FeedAbort => s.(chans := s.chans.(feeder := Draining, jobOpen := false))
    case CloseJobs => s.(chans := s.chans.(feeder := Draining, jobOpen := false))
    case CloseResults => s.(chans := s.chans.(feeder := Finished, resOpen := false))
  }

  predicate HasProc(pipes: Pipes, k: Worker) {
    k.proc.Some? && k.proc.value in pipes.procs && k.proc.value in pipes.sent
  }

  function ProcOf(pipes: Pipes, k: Worker): Proc
    requires HasProc(pipes, k)
  {
    pipes.procs[k.proc.value]
  }

  /** The write of a request line returns: the subprocess drains the pipe, or the whole line fits into it
      unread. Otherwise it blocks for as long as the subprocess lives, for no deadline runs yet. */
  predicate Passes(c: Config, q: Proc, j: JobId) {
    q.alive && c.line(j).Some? && (q.listening || (q.inbox == [] && c.line(j).value <= c.capacity))
  }

  predicate ActionEnabled(c: Config, chans: Channels, pipes: Pipes, k: Worker, a: Action) {
    match a
    case Exit => k.phase.Receiving? && !chans.jobOpen
    case Spawn(p) => k.phase.Got? && k.proc.None? && p !in pipes.procs
    case SpawnFail => k.phase.Got? && k.proc.None?
    case Reuse => k.phase.Got? && k.proc.Some?
    case Stamp => k.phase.Ready?
    case Store => k.phase.Stamped?
    case Write => k.phase.Stored? && HasProc(pipes, k) && Passes(c, ProcOf(pipes, k), k.phase.job)
    case WriteFail => k.phase.Stored? && HasProc(pipes, k) && !ProcOf(pipes, k).alive
    case MarshalFail => k.phase.Stored? && c.line(k.phase.job).None?
    case Answer => k.phase.Waiting? && HasProc(pipes, k) && ProcOf(pipes, k).outbox != []
    case Broken => k.phase.Waiting? && HasProc(pipes, k) && !ProcOf(pipes, k).alive && ProcOf(pipes, k).outbox == []
    case Expire => k.phase.Waiting? && HasProc(pipes, k)
    case Delete => k.phase.Answered?
    case Settle => k.phase.Deleted?
    case Deliver => k.phase.Offering? && chans.collecting && chans.resOpen
  }

  /** The worker dropped its subprocess: after a failed send, or because it served its share. */
  predicate Drops(c: Config, k: Worker)
    requires k.phase.Deleted?
  {
    !k.phase.ok || (c.maxJobs > 0 && k.served + 1 >= c.maxJobs)
  }

  /** The worker behind its action. */
  function Moved(c: Config, clock: nat, chans: Channels, pipes: Pipes, k: Worker, a: Action): Worker
    requires ActionEnabled(c, chans, pipes, k, a)
  {
    match a
    case Exit => k.(phase := Exited, proc := None)
    case Spawn(p) => Worker(Ready(k.phase.job), Some(p), 0)
    case SpawnFail => k.(phase := Offering(CrashResult(k.phase.job)))
    case Reuse => k.(phase := Ready(k.phase.job))
    case Stamp => k.(phase := Stamped(k.phase.job, clock))
    case Store => k.(phase := Stored(k.phase.job))
    case Write => k.(phase := Waiting(k.phase.job))
    case WriteFail => k.(phase := Answered(k.phase.job, CrashResult(k.phase.job), false))
    case MarshalFail => k.(phase := Answered(k.phase.job, CrashResult(k.phase.job), true))
    case Answer => k.(phase := Answered(k.phase.job, ProcOf(pipes, k).outbox[0], true))
    case Broken => k.(phase := Answered(k.phase.job, CrashResult(k.phase.job), false))
    case Expire => k.(phase := Answered(k.phase.job, Result(k.phase.job, "timeout", "", ""), false))
    case Delete => k.(phase := Deleted(k.phase.job, k.phase.res, k.phase.ok))
    case Settle =>
      Worker(Offering(k.phase.res), if Drops(c, k) then None else k.proc, if k.phase.ok then k.served + 1 else k.served)
    case Deliver => k.(phase := Receiving)
  }

  /** The subprocesses behind a worker's action. */
  function Piped(c: Config, chans: Channels, pipes: Pipes, k: Worker, a: Action): Pipes
    requires ActionEnabled(c, chans, pipes, k, a)
  {
    match a
    case Spawn(p) => Pipes(pipes.procs[p := Proc(true, false, [], None, [])], pipes.sent[p := []])
    case Write =>
      var p, q := k.proc.value, ProcOf(pipes, k);
      Pipes(pipes.procs[p := q.(inbox := q.inbox + [k.phase.job])], pipes.sent[p := pipes.sent[p] + [k.phase.job]])
    case Answer =>
      pipes.(procs := pipes.procs[k.proc.value := ProcOf(pipes, k).(outbox := ProcOf(pipes, k).outbox[1..])])
    case Expire => Killed(pipes, k)
    case Settle => if Drops(c, k) then Killed(pipes, k) else pipes
    case Exit => Killed(pipes, k)
    case _ => pipes
  }

  function Killed(pipes: Pipes, k: Worker): Pipes {
    if HasProc(pipes, k) then pipes.(procs := pipes.procs[k.proc.value := ProcOf(pipes, k).(alive := false)]) else pipes
  }

  function Flown(clock: nat, flight: Flight, k: Worker, a: Action): Flight {
    match (a, k.phase)
    case (Store, Stamped(j, at)) => Flight(flight.inflight[j := at], flight.startedAt[j := clock])
    case (Delete, Answered(j, _, _)) => flight.(inflight := flight.inflight - {j})
    case _ => flight
  }

  function Recorded(record: Record, k: Worker, a: Action): Record {
    match (a, k.phase)
    case (Deliver, Offering(r)) => Record(record.results[r.id := r], record.log + [r])
    case _ => record
  }

  function WorkApply(c: Config, s: Pool, w: nat, a: Action): Pool
    requires w < |s.workers| && ActionEnabled(c, s.chans, s.pipes, s.workers[w], a)
  {
    var k := s.workers[w];
    s.(workers := s.workers[w := Moved(c, s.clock, s.chans, s.pipes, k, a)],
       pipes := Piped(c, s.chans, s.pipes, k, a),
       flight := Flown(s.clock, s.flight, k, a),
       record := Recorded(s.record, k, a))
  }

  predicate EventEnabled(pipes: Pipes, p: ProcId, e: Event) {
    p in pipes.procs &&
    match e
    case Listen => pipes.procs[p].alive && pipes.procs[p].running.None?
    case Read => pipes.procs[p].alive && pipes.procs[p].running.None? && pipes.procs[p].inbox != []
    case Reply(r) => pipes.procs[p].alive && pipes.procs[p].running == Some(r.id)
    case Die => true
  }

  function EventApply(pipes: Pipes, p: ProcId, e: Event): Pipes
    requires EventEnabled(pipes, p, e)
  {
    var q := pipes.procs[p];
    pipes.(procs := pipes.procs[p :=
      match e
      case Listen => q.(listening := true)
      case Read => q.(listening := false, running := Some(q.inbox[0]), inbox := q.inbox[1..])
      case Reply(r) => q.(running := None, outbox := q.outbox + [r])
      case Die => q.(alive := false)])
  }

  predicate Enabled(c: Config, s: Pool, l: Label) {
    match l
    case Feeder(f) => FeederEnabled(c, s, f)
    case Work(w, a) => w < |s.workers| && ActionEnabled(c, s.chans, s.pipes, s.workers[w], a)
    case Stop => s.chans.collecting && !s.chans.resOpen
    case Sub(p, e) => EventEnabled(s.pipes, p, e)
    case Abort => c.abortable
    case Tick => true
  }

  function Apply(c: Config, s: Pool, l: Label): Pool
    requires Enabled(c, s, l)
  {
    match l
    case Feeder(f) => FeederApply(c, s, f)
    case Work(w, a) => WorkApply(c, s, w, a)
    case Stop => s.(chans := s.chans.(collecting := false))
    case Sub(p, e) => s.(pipes := EventApply(s.pipes, p, e))
    case Abort => s.(aborted := true)
    case Tick => s.(clock := s.clock + 1)
  }

  // ---------------------------------------------------------------- channels

  /** The channel bits follow the feeder; nobody is left to send on the result channel once it closes. */
  ghost predicate ChannelsOk(c: Config, chans: Channels, workers: seq<Worker>) {
    |workers| == c.workers && chans.fed <= |c.todo| &&
    (chans.jobOpen <==> chans.feeder.Feeding?) && (chans.resOpen <==> !chans.feeder.Finished?) &&
    (chans.feeder.Finished? ==> AllExited(workers)) &&
    (chans.jobOpen ==> forall w :: 0 <= w < |workers| ==> !workers[w].phase.Exited?) &&
    (!chans.collecting ==> !chans.resOpen)
  }

  lemma {:induction false} MovedPhase(c: Config, clock: nat, chans: Channels, pipes: Pipes, k: Worker, a: Action)
    requires ActionEnabled(c, chans, pipes, k, a)
    ensures !k.phase.Exited? && (Moved(c, clock, chans, pipes, k, a).phase.Exited? ==> !chans.jobOpen)
  {
  }

  lemma {:induction false} ChannelsKept(c: Config, s: Pool, l: Label)
    requires ChannelsOk(c, s.chans, s.workers) && Enabled(c, s, l)
    ensures ChannelsOk(c, Apply(c, s, l).chans, Apply(c, s, l).workers)
  {
    if l.Work? {
      MovedPhase(c, s.clock, s.chans, s.pipes, s.workers[l.w], l.a);
      var k := Moved(c, s.clock, s.chans, s.pipes, s.workers[l.w], l.a);
      assert s.workers[l.w := k][l.w] == k;
    }
  }

  // ---------------------------------------------------------------- request and response

  /** Nothing is in the pipes of the subprocess and it executes nothing. */
  predicate Quiet(p: Proc) {
    p.inbox == [] && p.running.None? && p.outbox == []
  }

  /** The subprocess holds exactly one request or answer, for job `j`. */
  predicate TalksOf(p: Proc, j: JobId) {
    (p.inbox == [j] && p.running.None? && p.outbox == []) ||
    (p.inbox == [] && p.running == Some(j) && p.outbox == []) ||
    (p.inbox == [] && p.running.None? && |p.outbox| == 1 && p.outbox[0].id == j)
  }

  predicate InSend(ph: Phase) {
    ph.Waiting? || ph.Answered? || ph.Deleted?
  }

  predicate NeedsProc(ph: Phase) {
    ph.Ready? || ph.Stamped? || ph.Stored? || InSend(ph)
  }

  /** What worker phase `ph` expects of its subprocess. */
  predicate Expects(ph: Phase, p: Proc) {
    if ph.Waiting? then TalksOf(p, ph.job)
    else if (ph.Answered? || ph.Deleted?) && !ph.ok then true
    else Quiet(p)
  }

  /** A worker and its subprocess agree on what was asked and answered. */
  predicate Paired(c: Config, pipes: Pipes, k: Worker) {
    (NeedsProc(k.phase) ==> k.proc.Some?) &&
    (k.proc.Some? ==>
       HasProc(pipes, k) && Expects(k.phase, ProcOf(pipes, k)) &&
       (c.maxJobs > 0 ==> k.served < c.maxJobs) &&
       |pipes.sent[k.proc.value]| <= k.served + if InSend(k.phase) then 1 else 0) &&
    (k.phase.Answered? || k.phase.Deleted? ==> k.phase.res.id == k.phase.job)
  }

  /** No two workers share a subprocess. */
  ghost predicate OwnProcs(workers: seq<Worker>) {
    forall v, w :: 0 <= v < |workers| && 0 <= w < |workers| && v != w && workers[v].proc.Some? ==>
      workers[v].proc != workers[w].proc
  }

  ghost predicate PairingOk(c: Config, workers: seq<Worker>, pipes: Pipes) {
    (forall w :: 0 <= w < |workers| ==> Paired(c, pipes, workers[w])) &&
    OwnProcs(workers) && pipes.procs.Keys == pipes.sent.Keys &&
    (c.maxJobs > 0 ==> forall p :: p in pipes.sent ==> |pipes.sent[p]| <= c.maxJobs)
  }

  lemma {:induction false} PairedMoves(c: Config, clock: nat, chans: Channels, pipes: Pipes, k: Worker, a: Action)
    requires ActionEnabled(c, chans, pipes, k, a) && Paired(c, pipes, k)
    ensures Paired(c, Piped(c, chans, pipes, k, a), Moved(c, clock, chans, pipes, k, a))
  {
  }

  /** An action leaves every other subprocess alone, starts at most a fresh one, and keeps the bound. */
  lemma {:induction false} PipedFrame(c: Config, clock: nat, chans: Channels, pipes: Pipes, k: Worker, a: Action)
    requires ActionEnabled(c, chans, pipes, k, a) && Paired(c, pipes, k) && pipes.procs.Keys == pipes.sent.Keys
    ensures var t, k' := Piped(c, chans, pipes, k, a), Moved(c, clock, chans, pipes, k, a);
            t.procs.Keys == t.sent.Keys &&
            (k'.proc == k.proc || k'.proc.None? || k'.proc.value !in pipes.procs) &&
            (forall p :: p in pipes.procs && Some(p) != k.proc ==>
             p in t.procs && t.procs[p] == pipes.procs[p] && t.sent[p] == pipes.sent[p]) &&
            (forall p :: p in t.sent && (p !in pipes.sent || t.sent[p] != pipes.sent[p]) ==> c.maxJobs > 0 ==>
             |t.sent[p]| <= c.maxJobs)
  {
  }

  lemma {:induction false} PairingWorks(c: Config, s: Pool, w: nat, a: Action)
    requires PairingOk(c, s.workers, s.pipes) && w < |s.workers| && ActionEnabled(c, s.chans, s.pipes, s.workers[w], a)
    ensures PairingOk(c, WorkApply(c, s, w, a).workers, WorkApply(c, s, w, a).pipes)
  {
    var k := s.workers[w];
    var k' := Moved(c, s.clock, s.chans, s.pipes, k, a);
    var t := Piped(c, s.chans, s.pipes, k, a);
    PairedMoves(c, s.clock, s.chans, s.pipes, k, a);
    PipedFrame(c, s.clock, s.chans, s.pipes, k, a);
    PairingFrame(c, s.workers, s.pipes, w, k', t);
  }

  lemma {:induction false} PairingFrame(c: Config, workers: seq<Worker>, pipes: Pipes, w: nat, k': Worker, t: Pipes)
    requires PairingOk(c, workers, pipes) && w < |workers| && Paired(c, t, k') && t.procs.Keys == t.sent.Keys
    requires k'.proc == workers[w].proc || k'.proc.None? || k'.proc.value !in pipes.procs
    requires forall p :: p in pipes.procs && Some(p) != workers[w].proc ==>
               p in t.procs && t.procs[p] == pipes.procs[p] && t.sent[p] == pipes.sent[p]
    requires forall p :: p in t.sent && (p !in pipes.sent || t.sent[p] != pipes.sent[p]) ==> c.maxJobs > 0 ==>
               |t.sent[p]| <= c.maxJobs
    ensures PairingOk(c, workers[w := k'], t)
  {
    var after := workers[w := k'];
    forall v | 0 <= v < |after| ensures Paired(c, t, after[v]) {
      if v != w { assert Paired(c, pipes, workers[v]); }
    }
    forall u, v | 0 <= u < |after| && 0 <= v < |after| && u != v && after[u].proc.Some?
      ensures after[u].proc != after[v].proc
    {
      if u != w { assert Paired(c, pipes, workers[u]); }
      if v != w { assert Paired(c, pipes, workers[v]); }
    }
  }

  lemma {:induction false} PairingEvents(c: Config, workers: seq<Worker>, pipes: Pipes, p: ProcId, e: Event)
    requires PairingOk(c, workers, pipes) && EventEnabled(pipes, p, e)
    ensures PairingOk(c, workers, EventApply(pipes, p, e))
  {
    var t := EventApply(pipes, p, e);
    forall w | 0 <= w < |workers| ensures Paired(c, t, workers[w]) {
      assert Paired(c, pipes, workers[w]);
    }
  }

  lemma {:induction false} PairingKept(c: Config, s: Pool, l: Label)
    requires PairingOk(c, s.workers, s.pipes) && Enabled(c, s, l)
    ensures PairingOk(c, Apply(c, s, l).workers, Apply(c, s, l).pipes)
  {
    match l {
      case Feeder(Feed(w)) =>
        PairingFrame(c, s.workers, s.pipes, w, s.workers[w].(phase := Got(c.todo[s.chans.fed])), s.pipes);
      case Work(w, a) => PairingWorks(c, s, w, a);
      case Sub(p, e) => PairingEvents(c, s.workers, s.pipes, p, e);
      case _ =>
    }
  }

  // ---------------------------------------------------------------- accounting

  /** The job a worker is busy with, from the moment it receives it to the delivery of its result. */
  function JobOf(ph: Phase): Option<JobId> {
    match ph
    case Receiving | Exited => None
    case Offering(r) => Some(r.id)
    case _ => Some(ph.job)
  }

  ghost predicate Holds(workers: seq<Worker>, j: JobId) {
    exists w :: 0 <= w < |workers| && JobOf(workers[w].phase) == Some(j)
  }

  /** The map the recorded results denote: a later result for an ID replaces an earlier one. */
  function Replay(log: seq<Result>): map<JobId, Result> {
    if log == [] then map[] else Replay(log[..|log| - 1])[log[|log| - 1].id := log[|log| - 1]]
  }

  ghost predicate NoRepeat(log: seq<Result>) {
    forall a, b :: 0 <= a < b < |log| ==> log[a].id != log[b].id
  }

  /** The fed jobs split without overlap into the ones recorded and the ones one worker each is busy with. */
  ghost predicate AccountOk(c: Config, fed: nat, workers: seq<Worker>, record: Record) {
    fed <= |c.todo| &&
    (forall w :: 0 <= w < |workers| && JobOf(workers[w].phase).Some? ==>
       JobOf(workers[w].phase).value in c.todo[..fed] && JobOf(workers[w].phase).value !in record.results) &&
    (forall v, w :: 0 <= v < |workers| && 0 <= w < |workers| && v != w && JobOf(workers[v].phase).Some? ==>
       JobOf(workers[v].phase) != JobOf(workers[w].phase)) &&
    (forall j :: j in c.todo[..fed] ==> j in record.results || Holds(workers, j)) &&
    (forall j :: j in record.results ==> j in c.todo[..fed] && record.results[j].id == j) &&
    record.results == Replay(record.log) && NoRepeat(record.log)
  }

  lemma {:induction false} MovedJob(c: Config, clock: nat, chans: Channels, pipes: Pipes, k: Worker, a: Action)
    requires ActionEnabled(c, chans, pipes, k, a) && Paired(c, pipes, k)
    ensures var j := JobOf(Moved(c, clock, chans, pipes, k, a).phase);
            if a.Deliver? then j.None? && k.phase.Offering? else j == JobOf(k.phase)
  {
  }

  lemma {:induction false} HoldsFrame(workers: seq<Worker>, w: nat, k: Worker, j: JobId)
    requires w < |workers| && Holds(workers, j) && (JobOf(workers[w].phase) == Some(j) ==> JobOf(k.phase) == Some(j))
    ensures Holds(workers[w := k], j)
  {
    var v :| 0 <= v < |workers| && JobOf(workers[v].phase) == Some(j);
    assert JobOf(workers[w := k][v].phase) == Some(j);
  }

  /** A worker that stays with its job changes nothing in the account. */
  lemma {:induction false} AccountStays(c: Config, fed: nat, workers: seq<Worker>, record: Record, w: nat, k: Worker)
    requires AccountOk(c, fed, workers, record) && w < |workers| && JobOf(k.phase) == JobOf(workers[w].phase)
    ensures AccountOk(c, fed, workers[w := k], record)
  {
    forall j | j in c.todo[..fed] && j !in record.results ensures Holds(workers[w := k], j) {
      HoldsFrame(workers, w, k, j);
    }
  }

  lemma {:induction false} AccountFed(c: Config, fed: nat, workers: seq<Worker>, record: Record, w: nat, k: Worker)
    requires ValidConfig(c) && AccountOk(c, fed, workers, record) && w < |workers| && fed < |c.todo|
    requires JobOf(workers[w].phase).None? && k.phase == Got(c.todo[fed])
    ensures AccountOk(c, fed + 1, workers[w := k], record)
  {
    var j := c.todo[fed];
    assert c.todo[..fed + 1] == c.todo[..fed] + [j];
    assert j !in c.todo[..fed];
    assert JobOf(workers[w := k][w].phase) == Some(j);
    forall i | i in c.todo[..fed + 1] && i !in record.results ensures Holds(workers[w := k], i) {
      if i != j { HoldsFrame(workers, w, k, i); }
    }
  }

  lemma {:induction false} AccountDelivered(c: Config, fed: nat, workers: seq<Worker>, record: Record, w: nat)
    requires AccountOk(c, fed, workers, record) && w < |workers| && workers[w].phase.Offering?
    ensures workers[w].phase.res.id !in record.results
    ensures AccountOk(c, fed, workers[w := workers[w].(phase := Receiving)], Recorded(record, workers[w], Deliver))
  {
    var r := workers[w].phase.res;
    var log := record.log + [r];
    var after := workers[w := workers[w].(phase := Receiving)];
    assert JobOf(workers[w].phase) == Some(r.id);
    assert log[..|record.log|] == record.log;
    InReplay(record.log);
    forall j | j in c.todo[..fed] && j !in record.results && j != r.id ensures Holds(after, j) {
      HoldsFrame(workers, w, after[w], j);
    }
  }

  lemma {:induction false} InReplay(log: seq<Result>)
    ensures forall k :: 0 <= k < |log| ==> log[k].id in Replay(log)
    ensures forall j :: j in Replay(log) ==> exists k :: 0 <= k < |log| && log[k].id == j && log[k] == Replay(log)[j]
  {
    if log == [] {
    } else {
      var n := |log| - 1;
      InReplay(log[..n]);
      forall j | j in Replay(log) ensures exists k :: 0 <= k < |log| && log[k].id == j && log[k] == Replay(log)[j] {
        if j == log[n].id {
          assert log[n].id == j;
        } else {
          var k :| 0 <= k < n && log[..n][k].id == j && log[..n][k] == Replay(log[..n])[j];
          assert log[k].id == j;
        }
      }
      forall k | 0 <= k < |log| ensures log[k].id in Replay(log) {
        if k < n { assert log[..n][k] == log[k]; }
      }
    }
  }

  lemma {:induction false} AccountKept(c: Config, s: Pool, l: Label)
    requires ValidConfig(c) && Enabled(c, s, l)
    requires PairingOk(c, s.workers, s.pipes) && AccountOk(c, s.chans.fed, s.workers, s.record)
    ensures AccountOk(c, Apply(c, s, l).chans.fed, Apply(c, s, l).workers, Apply(c, s, l).record)
  {
    match l {
      case Feeder(Feed(w)) =>
        AccountFed(c, s.chans.fed, s.workers, s.record, w, s.workers[w].(phase := Got(c.todo[s.chans.fed])));
      case Work(w, a) =>
        assert Paired(c, s.pipes, s.workers[w]);
        MovedJob(c, s.clock, s.chans, s.pipes, s.workers[w], a);
        if a.Deliver? {
          AccountDelivered(c, s.chans.fed, s.workers, s.record, w);
        } else {
          AccountStays(c, s.chans.fed, s.workers, s.record, w, Moved(c, s.clock, s.chans, s.pipes, s.workers[w], a));
        }
      case _ =>
    }
  }

  // ---------------------------------------------------------------- the in-flight map

  /** Between its Store and its Delete a job is in flight. */
  predicate Flying(ph: Phase) {
    ph.Stored? || ph.Waiting? || ph.Answered?
  }

  predicate NotYetStored(ph: Phase) {
    ph.Got? || ph.Ready? || ph.Stamped?
  }

  ghost predicate Flies(workers: seq<Worker>, j: JobId) {
    exists w :: 0 <= w < |workers| && Flying(workers[w].phase) && workers[w].phase.job == j
  }

  /** The map holds exactly the jobs of workers between Store and Delete, each stamped no later than it
      was stored; no job is stored twice. */
  ghost predicate FlightOk(c: Config, clock: nat, fed: nat, workers: seq<Worker>, flight: Flight) {
    fed <= |c.todo| &&
    (forall w :: 0 <= w < |workers| && Flying(workers[w].phase) ==> workers[w].phase.job in flight.inflight) &&
    (forall j :: j in flight.inflight ==>
       Flies(workers, j) && j in flight.startedAt && flight.inflight[j] <= flight.startedAt[j] <= clock) &&
    (forall w :: 0 <= w < |workers| && NotYetStored(workers[w].phase) ==> workers[w].phase.job !in flight.startedAt) &&
    (forall w :: 0 <= w < |workers| && workers[w].phase.Stamped? ==> workers[w].phase.at <= clock) &&
    (forall j :: j in flight.startedAt ==> j in c.todo[..fed])
  }

  lemma {:induction false} MovedFlight(c: Config, clock: nat, chans: Channels, pipes: Pipes, k: Worker, a: Action)
    requires ActionEnabled(c, chans, pipes, k, a)
    ensures var k' := Moved(c, clock, chans, pipes, k, a);
            (a.Store? ==> k.phase.Stamped? && k'.phase == Stored(k.phase.job)) &&
            (a.Delete? ==> k.phase.Answered? && k'.phase == Deleted(k.phase.job, k.phase.res, k.phase.ok)) &&
            (!a.Store? && !a.Delete? ==>
               Flying(k'.phase) == Flying(k.phase) && (Flying(k.phase) ==> k'.phase.job == k.phase.job) &&
               (NotYetStored(k'.phase) ==> NotYetStored(k.phase) && k'.phase.job == k.phase.job) &&
               (k'.phase.Stamped? ==> k'.phase.at == clock))
  {
  }

  lemma {:induction false} FliesFrame(workers: seq<Worker>, w: nat, k: Worker, j: JobId)
    requires w < |workers| && Flies(workers, j)
    requires Flying(workers[w].phase) && workers[w].phase.job == j ==> Flying(k.phase) && k.phase.job == j
    ensures Flies(workers[w := k], j)
  {
    var v :| 0 <= v < |workers| && Flying(workers[v].phase) && workers[v].phase.job == j;
    assert Flying(workers[w := k][v].phase);
  }

  lemma {:induction false} FlightStays(c: Config, clock: nat, fed: nat, workers: seq<Worker>, flight: Flight, w: nat,
                                       k: Worker)
    requires FlightOk(c, clock, fed, workers, flight) && w < |workers|
    requires Flying(k.phase) == Flying(workers[w].phase) && (Flying(k.phase) ==> k.phase.job == workers[w].phase.job)
    requires NotYetStored(k.phase) ==> k.phase.job !in flight.startedAt
    requires k.phase.Stamped? ==> k.phase.at <= clock
    ensures FlightOk(c, clock, fed, workers[w := k], flight)
  {
    forall j | j in flight.inflight ensures Flies(workers[w := k], j) {
      FliesFrame(workers, w, k, j);
    }
  }

  /** Worker `w` is alone with its job. */
  ghost predicate Alone(workers: seq<Worker>, w: nat, j: JobId)
    requires w < |workers|
  {
    forall v :: 0 <= v < |workers| && v != w ==> JobOf(workers[v].phase) != Some(j)
  }

  lemma {:induction false} FlightStored(c: Config, clock: nat, fed: nat, workers: seq<Worker>, flight: Flight, w: nat,
                                        j: JobId, after: seq<Worker>)
    requires FlightOk(c, clock, fed, workers, flight) && w < |workers| && Alone(workers, w, j) && j in c.todo[..fed]
    requires workers[w].phase.Stamped? && workers[w].phase.job == j
    requires after == workers[w := workers[w].(phase := Stored(j))]
    ensures FlightOk(c, clock, fed, after,
                     Flight(flight.inflight[j := workers[w].phase.at], flight.startedAt[j := clock]))
  {
    assert Flying(after[w].phase) && after[w].phase.job == j;
    forall i | i in flight.inflight ensures Flies(after, i) {
      FliesFrame(workers, w, after[w], i);
    }
    forall v | 0 <= v < |after| && NotYetStored(after[v].phase) ensures after[v].phase.job != j {
      assert v != w && JobOf(workers[v].phase) == Some(after[v].phase.job);
    }
  }

  lemma {:induction false} FlightDeleted(c: Config, clock: nat, fed: nat, workers: seq<Worker>, flight: Flight, w: nat,
                                         j: JobId, after: seq<Worker>)
    requires FlightOk(c, clock, fed, workers, flight) && w < |workers| && Alone(workers, w, j)
    requires workers[w].phase.Answered? && workers[w].phase.job == j
    requires after == workers[w := workers[w].(phase := Deleted(j, workers[w].phase.res, workers[w].phase.ok))]
    ensures FlightOk(c, clock, fed, after, flight.(inflight := flight.inflight - {j}))
  {
    forall i | i in flight.inflight && i != j ensures Flies(after, i) {
      FliesFrame(workers, w, after[w], i);
    }
    forall v | 0 <= v < |after| && Flying(after[v].phase) ensures after[v].phase.job in flight.inflight - {j} {
      assert v != w && JobOf(workers[v].phase) == Some(workers[v].phase.job);
    }
  }

  lemma {:induction false} FlightWorks(c: Config, s: Pool, w: nat, a: Action)
    requires w < |s.workers| && ActionEnabled(c, s.chans, s.pipes, s.workers[w], a)
    requires AccountOk(c, s.chans.fed, s.workers, s.record) && FlightOk(c, s.clock, s.chans.fed, s.workers, s.flight)
    ensures FlightOk(c, s.clock, s.chans.fed, WorkApply(c, s, w, a).workers, WorkApply(c, s, w, a).flight)
  {
    var k := s.workers[w];
    var k' := Moved(c, s.clock, s.chans, s.pipes, k, a);
    MovedFlight(c, s.clock, s.chans, s.pipes, k, a);
    if a.Store? || a.Delete? {
      assert JobOf(k.phase) == Some(k.phase.job);
      if a.Store? {
        FlightStored(c, s.clock, s.chans.fed, s.workers, s.flight, w, k.phase.job, s.workers[w := k']);
      } else {
        FlightDeleted(c, s.clock, s.chans.fed, s.workers, s.flight, w, k.phase.job, s.workers[w := k']);
      }
    } else {
      FlightStays(c, s.clock, s.chans.fed, s.workers, s.flight, w, k');
    }
  }

  lemma {:induction false} FlightFed(c: Config, clock: nat, fed: nat, workers: seq<Worker>, flight: Flight, w: nat)
    requires ValidConfig(c) && FlightOk(c, clock, fed, workers, flight) && w < |workers| && fed < |c.todo|
    requires workers[w].phase.Receiving?
    ensures FlightOk(c, clock, fed + 1, workers[w := workers[w].(phase := Got(c.todo[fed]))], flight)
  {
    assert c.todo[..fed + 1] == c.todo[..fed] + [c.todo[fed]];
    assert c.todo[fed] !in c.todo[..fed];
    FlightStays(c, clock, fed, workers, flight, w, workers[w].(phase := Got(c.todo[fed])));
  }

  lemma {:induction false} FlightKept(c: Config, s: Pool, l: Label)
    requires ValidConfig(c) && Enabled(c, s, l)
    requires AccountOk(c, s.chans.fed, s.workers, s.record) && FlightOk(c, s.clock, s.chans.fed, s.workers, s.flight)
    ensures var t := Apply(c, s, l); FlightOk(c, t.clock, t.chans.fed, t.workers, t.flight)
  {
    match l {
      case Feeder(Feed(w)) => FlightFed(c, s.clock, s.chans.fed, s.workers, s.flight, w);
      case Work(w, a) => FlightWorks(c, s, w, a);
      case _ =>
    }
  }

  // ---------------------------------------------------------------- whole runs

  ghost predicate Inv(c: Config, s: Pool) {
    ChannelsOk(c, s.chans, s.workers) && PairingOk(c, s.workers, s.pipes) &&
    AccountOk(c, s.chans.fed, s.workers, s.record) && FlightOk(c, s.clock, s.chans.fed, s.workers, s.flight)
  }

  lemma {:induction false} InvInit(c: Config)
    requires ValidConfig(c)
    ensures Inv(c, Init(c))
  {
    assert Replay([]) == map[];
  }

  lemma {:induction false} InvKept(c: Config, s: Pool, l: Label)
    requires ValidConfig(c) && Inv(c, s) && Enabled(c, s, l)
    ensures Inv(c, Apply(c, s, l))
  {
    ChannelsKept(c, s, l);
    PairingKept(c, s, l);
    AccountKept(c, s, l);
    FlightKept(c, s, l);
  }

  /** The states a run of labels goes through from `s`; every label must be enabled in turn. */
  ghost predicate Runs(c: Config, s: Pool, labels: seq<Label>, t: Pool)
    decreases |labels|
  {
    if labels == [] then s == t
    else Enabled(c, s, labels[0]) && Runs(c, Apply(c, s, labels[0]), labels[1..], t)
  }

  lemma {:induction false} RunInv(c: Config, s: Pool, labels: seq<Label>, t: Pool)
    requires ValidConfig(c) && Inv(c, s) && Runs(c, s, labels, t)
    ensures Inv(c, t)
    decreases |labels|
  {
    if labels == [] {
    } else {
      InvKept(c, s, labels[0]);
      RunInv(c, Apply(c, s, labels[0]), labels[1..], t);
    }
  }

  /** A state some run reaches. */
  ghost predicate Reachable(c: Config, s: Pool) {
    exists labels :: Runs(c, Init(c), labels, s)
  }

  lemma {:induction false} ReachableInv(c: Config, s: Pool)
    requires ValidConfig(c) && Reachable(c, s)
    ensures Inv(c, s)
  {
    InvInit(c);
    var labels :| Runs(c, Init(c), labels, s);
    RunInv(c, Init(c), labels, s);
  }

  /** In every run, what a worker forwards carries the ID of the job it just sent. */
  lemma {:induction false} AnswersMatchRequests(c: Config, s: Pool, w: nat)
    requires ValidConfig(c) && Reachable(c, s) && w < |s.workers|
    ensures s.workers[w].phase.Answered? || s.workers[w].phase.Deleted? ==>
              s.workers[w].phase.res.id == s.workers[w].phase.job
    ensures s.workers[w].phase.Waiting? && Enabled(c, s, Work(w, Answer)) ==>
              ProcOf(s.pipes, s.workers[w]).outbox[0].id == s.workers[w].phase.job
  {
    ReachableInv(c, s);
    PairAt(c, s.workers, s.pipes, w);
    PairMatches(c, s.chans, s.pipes, s.workers[w]);
  }

  lemma {:induction false} PairAt(c: Config, workers: seq<Worker>, pipes: Pipes, w: nat)
    requires PairingOk(c, workers, pipes) && w < |workers|
    ensures Paired(c, pipes, workers[w])
  {
  }

  lemma {:induction false} PairMatches(c: Config, chans: Channels, pipes: Pipes, k: Worker)
    requires Paired(c, pipes, k)
    ensures k.phase.Answered? || k.phase.Deleted? ==> k.phase.res.id == k.phase.job
    ensures k.phase.Waiting? && ActionEnabled(c, chans, pipes, k, Answer) ==>
              ProcOf(pipes, k).outbox[0].id == k.phase.job
  {
  }

  /** With a job limit, no subprocess is ever sent more jobs than that. */
  lemma {:induction false} SubprocessesAreRecycled(c: Config, s: Pool, p: ProcId)
    requires ValidConfig(c) && Reachable(c, s) && c.maxJobs > 0 && p in s.pipes.sent
    ensures |s.pipes.sent[p]| <= c.maxJobs
  {
    ReachableInv(c, s);
  }

  /** Nobody sends on a closed channel: the feeder offers jobs, and a worker a result, only while the
      channel is open. */
  lemma {:induction false} NoSendOnClosed(c: Config, s: Pool)
    requires ValidConfig(c) && Reachable(c, s)
    ensures s.chans.feeder.Feeding? ==> s.chans.jobOpen
    ensures forall w :: 0 <= w < |s.workers| && s.workers[w].phase.Offering? ==> s.chans.resOpen && s.chans.collecting
  {
    ReachableInv(c, s);
  }

  lemma {:induction false} OfferedIsFresh(c: Config, fed: nat, workers: seq<Worker>, record: Record, w: nat)
    requires AccountOk(c, fed, workers, record) && w < |workers| && workers[w].phase.Offering?
    ensures workers[w].phase.res.id in c.todo && workers[w].phase.res.id !in record.results
  {
    assert JobOf(workers[w].phase) == Some(workers[w].phase.res.id);
  }

  /** A result is delivered under the ID of a job of the run that has no result yet, so no job is
      recorded twice and no record is overwritten. */
  lemma {:induction false} RecordedOnce(c: Config, s: Pool, w: nat)
    requires ValidConfig(c) && Reachable(c, s) && w < |s.workers| && s.workers[w].phase.Offering?
    ensures s.workers[w].phase.res.id in c.todo && s.workers[w].phase.res.id !in s.record.results
  {
    ReachableInv(c, s);
    OfferedIsFresh(c, s.chans.fed, s.workers, s.record, w);
  }

  /** When the collector exits, nothing is in flight, every job handed out has exactly one recorded
      result under its own ID, and no other ID has one; unless the run was aborted, that is every job. */
  lemma {:induction false} RunComplete(c: Config, s: Pool)
    requires ValidConfig(c) && Reachable(c, s) && !s.chans.collecting
    ensures s.flight.inflight == map[]
    ensures s.chans.fed <= |c.todo| && forall j :: j in s.record.results <==> j in c.todo[..s.chans.fed]
    ensures NoRepeat(s.record.log) && s.record.results == Replay(s.record.log)
    ensures !s.aborted ==> s.chans.fed == |c.todo| && forall j :: j in c.todo <==> j in s.record.results
  {
    ReachableInv(c, s);
    var labels :| Runs(c, Init(c), labels, s);
    InvInit(c);
    FedAll(c, Init(c), labels, s);
    assert c.todo[..|c.todo|] == c.todo;
  }

  lemma {:induction false} FedAll(c: Config, s: Pool, labels: seq<Label>, t: Pool)
    requires Runs(c, s, labels, t)
    requires !s.aborted ==> s.chans.feeder.Feeding? || s.chans.fed == |c.todo|
    ensures !t.aborted ==> t.chans.feeder.Feeding? || t.chans.fed == |c.todo|
    decreases |labels|
  {
    if labels == [] {
    } else {
      FedAll(c, Apply(c, s, labels[0]), labels[1..], t);
    }
  }

  // ---------------------------------------------------------------- progress

  function Rank(ph: Phase): nat {
    match ph
    case Got(_) => 9
    case Ready(_) => 8
    case Stamped(_, _) => 7
    case Stored(_) => 6
    case Waiting(_) => 5
    case Answered(_, _, _) => 4
    case Deleted(_, _, _) => 3
    case Offering(_) => 2
    case Receiving => 1
    case Exited => 0
  }

  function RankSum(workers: seq<Worker>): nat {
    if workers == [] then 0 else RankSum(workers[..|workers| - 1]) + Rank(workers[|workers| - 1].phase)
  }

  lemma {:induction false} RankUpdate(workers: seq<Worker>, w: nat, k: Worker)
    requires w < |workers|
    ensures RankSum(workers[w := k]) == RankSum(workers) - Rank(workers[w].phase) + Rank(k.phase)
  {
    var n := |workers| - 1;
    if w == n {
      assert workers[w := k][..n] == workers[..n];
    } else {
      assert workers[w := k][..n] == workers[..n][w := k];
      RankUpdate(workers[..n], w, k);
    }
  }

  /** What is left to do: nine steps a job not yet fed, and the rest of every actor's own program. */
  function Left(c: Config, s: Pool): nat
    requires s.chans.fed <= |c.todo|
  {
    9 * (|c.todo| - s.chans.fed) + RankSum(s.workers) +
    (match s.chans.feeder case Feeding => 2 case Draining => 1 case Finished => 0) +
    (if s.chans.collecting then 1 else 0)
  }

  lemma {:induction false} MovedRank(c: Config, clock: nat, chans: Channels, pipes: Pipes, k: Worker, a: Action)
    requires ActionEnabled(c, chans, pipes, k, a)
    ensures Rank(Moved(c, clock, chans, pipes, k, a).phase) < Rank(k.phase)
  {
  }

  /** Every step of feeder, workers and collector makes the rest strictly smaller; no other step makes
      it larger. */
  lemma {:induction false} StepsDecrease(c: Config, s: Pool, l: Label)
    requires s.chans.fed <= |c.todo| && Enabled(c, s, l)
    ensures Apply(c, s, l).chans.fed <= |c.todo|
    ensures if IsPoolStep(l) then Left(c, Apply(c, s, l)) < Left(c, s) else Left(c, Apply(c, s, l)) == Left(c, s)
  {
    match l {
      case Feeder(Feed(w)) => RankUpdate(s.workers, w, s.workers[w].(phase := Got(c.todo[s.chans.fed])));
      case Work(w, a) =>
        RankUpdate(s.workers, w, Moved(c, s.clock, s.chans, s.pipes, s.workers[w], a));
        MovedRank(c, s.clock, s.chans, s.pipes, s.workers[w], a);
      case _ =>
    }
  }

  function PoolSteps(labels: seq<Label>): nat {
    if labels == [] then 0 else (if IsPoolStep(labels[0]) then 1 else 0) + PoolSteps(labels[1..])
  }

  /** No run contains more steps of feeder, workers and collector than were left at its start. */
  lemma {:induction false} RunsTerminate(c: Config, s: Pool, labels: seq<Label>, t: Pool)
    requires s.chans.fed <= |c.todo| && Runs(c, s, labels, t)
    ensures t.chans.fed <= |c.todo| && PoolSteps(labels) + Left(c, t) <= Left(c, s)
    decreases |labels|
  {
    if labels == [] {
    } else {
      StepsDecrease(c, s, labels[0]);
      RunsTerminate(c, Apply(c, s, labels[0]), labels[1..], t);
    }
  }

  ghost predicate CanMove(c: Config, s: Pool) {
    exists l :: IsPoolStep(l) && Enabled(c, s, l)
  }

  /** Every request line of the run fits into an unread pipe. */
  ghost predicate EveryLineFits(c: Config) {
    forall j :: j in c.todo && c.line(j).Some? ==> c.line(j).value <= c.capacity
  }

  /** The worker writes a line that its subprocess neither drains nor, being alive, refuses, and that is
      too long for the pipe. */
  ghost predicate Blocked(c: Config, pipes: Pipes, k: Worker) {
    k.phase.Stored? && HasProc(pipes, k) && ProcOf(pipes, k).alive && !ProcOf(pipes, k).listening &&
    c.line(k.phase.job).Some? && c.line(k.phase.job).value > c.capacity
  }

  /** The next action of a worker between receiving a job and delivering its result, which needs nobody
      else's unless the worker is blocked. */
  function NextAction(c: Config, pipes: Pipes, k: Worker): Action {
    match k.phase
    case Got(_) => if k.proc.None? then SpawnFail else Reuse
    case Ready(_) => Stamp
    case Stamped(_, _) => Store
    case Stored(j) =>
      if c.line(j).None? then MarshalFail else if HasProc(pipes, k) && !ProcOf(pipes, k).alive then WriteFail else Write
    case Waiting(_) => Expire
    case Answered(_, _, _) => Delete
    case Deleted(_, _, _) => Settle
    case _ => Deliver
  }

  lemma {:induction false} UnblockedMoves(c: Config, chans: Channels, pipes: Pipes, k: Worker)
    requires Paired(c, pipes, k) && JobOf(k.phase).Some? && !Blocked(c, pipes, k)
    requires k.phase.Offering? ==> chans.collecting && chans.resOpen
    ensures ActionEnabled(c, chans, pipes, k, NextAction(c, pipes, k))
  {
  }

  lemma {:induction false} BusyWorkerMoves(c: Config, s: Pool, w: nat)
    requires Inv(c, s) && s.chans.collecting && w < |s.workers| && JobOf(s.workers[w].phase).Some?
    requires !Blocked(c, s.pipes, s.workers[w])
    ensures CanMove(c, s)
  {
    PairAt(c, s.workers, s.pipes, w);
    UnblockedMoves(c, s.chans, s.pipes, s.workers[w]);
    var l := Work(w, NextAction(c, s.pipes, s.workers[w]));
    assert IsPoolStep(l) && Enabled(c, s, l);
  }

  lemma {:induction false} IdlePoolMoves(c: Config, s: Pool)
    requires ValidConfig(c) && ChannelsOk(c, s.chans, s.workers) && s.chans.collecting
    requires forall w :: 0 <= w < |s.workers| ==> JobOf(s.workers[w].phase).None?
    ensures CanMove(c, s)
  {
    var l :=
      if s.chans.feeder.Feeding? then
        if s.chans.fed < |c.todo| then Feeder(Feed(0)) else Feeder(CloseJobs)
      else if s.chans.feeder.Draining? then
        if AllExited(s.workers) then Feeder(CloseResults)
        else
          var w :| 0 <= w < |s.workers| && !s.workers[w].phase.Exited?;
          Work(w, Exit)
      else Stop;
    if s.chans.feeder.Feeding? { assert JobOf(s.workers[0].phase).None?; }
    assert IsPoolStep(l) && Enabled(c, s, l);
  }

  /** Before the collector's exit, feeder, workers and collector stand still only over a blocked worker. */
  lemma {:induction false} StuckIsBlocked(c: Config, s: Pool) returns (w: nat)
    requires ValidConfig(c) && Inv(c, s) && s.chans.collecting && !CanMove(c, s)
    ensures w < |s.workers| && Blocked(c, s.pipes, s.workers[w])
  {
    if v: nat :| v < |s.workers| && JobOf(s.workers[v].phase).Some? {
      w := v;
      if !Blocked(c, s.pipes, s.workers[w]) { BusyWorkerMoves(c, s, w); }
    } else {
      IdlePoolMoves(c, s);
    }
  }

  lemma {:induction false} BlockedIsFed(c: Config, s: Pool, w: nat)
    requires Inv(c, s) && w < |s.workers| && Blocked(c, s.pipes, s.workers[w])
    ensures !EveryLineFits(c)
  {
    var j := s.workers[w].phase.job;
    assert JobOf(s.workers[w].phase) == Some(j);
    assert j in c.todo;
  }

  /** If every line fits, some step of feeder, workers or collector is enabled until the collector has
      exited, whatever the subprocesses do. */
  lemma {:induction false} NeverStuck(c: Config, s: Pool)
    requires ValidConfig(c) && EveryLineFits(c) && Reachable(c, s) && s.chans.collecting
    ensures CanMove(c, s)
  {
    ReachableInv(c, s);
    if !CanMove(c, s) {
      var w := StuckIsBlocked(c, s);
      BlockedIsFed(c, s, w);
    }
  }

  lemma {:induction false} RunsMore(c: Config, s: Pool, l: Label, labels: seq<Label>, t: Pool)
    requires Enabled(c, s, l) && Runs(c, Apply(c, s, l), labels, t)
    ensures Runs(c, s, [l] + labels, t)
  {
    assert ([l] + labels)[1..] == labels;
  }

  lemma {:induction false} RunsOn(c: Config, s: Pool, labels: seq<Label>, t: Pool, l: Label)
    requires Runs(c, s, labels, t) && Enabled(c, t, l)
    ensures Runs(c, s, labels + [l], Apply(c, t, l))
    decreases |labels|
  {
    if labels == [] {
      RunsMore(c, s, l, [], Apply(c, t, l));
    } else {
      RunsOn(c, Apply(c, s, labels[0]), labels[1..], t, l);
      RunsMore(c, s, labels[0], labels[1..] + [l], Apply(c, t, l));
      assert [labels[0]] + (labels[1..] + [l]) == labels + [l];
    }
  }

  lemma {:induction false} ReachableOn(c: Config, s: Pool, l: Label)
    requires Reachable(c, s) && Enabled(c, s, l)
    ensures Reachable(c, Apply(c, s, l))
  {
    var labels :| Runs(c, Init(c), labels, s);
    RunsOn(c, Init(c), labels, s, l);
  }

  /** The collector is not done, and feeder, workers and collector can take no further step. */
  ghost predicate Stuck(c: Config, s: Pool) {
    s.chans.collecting && !CanMove(c, s)
  }

  /** Steps of feeder, workers and collector lead from `s` to where they end or get stuck. */
  lemma {:induction false} RunsOut(c: Config, s: Pool) returns (labels: seq<Label>, t: Pool)
    requires ValidConfig(c) && Reachable(c, s)
    ensures Runs(c, s, labels, t) && PoolSteps(labels) == |labels| && Reachable(c, t)
    ensures !t.chans.collecting || Stuck(c, t)
    ensures forall w: nat :: w < |s.workers| && Blocked(c, s.pipes, s.workers[w]) ==> Stuck(c, t)
    decreases if s.chans.fed <= |c.todo| then Left(c, s) else 0
  {
    ReachableInv(c, s);
    if !CanMove(c, s) || !s.chans.collecting {
      labels, t := [], s;
      forall w: nat | w < |s.workers| && Blocked(c, s.pipes, s.workers[w]) ensures s.chans.collecting {
        assert !s.workers[w].phase.Exited?;
      }
    } else {
      var l :| IsPoolStep(l) && Enabled(c, s, l);
      StepsDecrease(c, s, l);
      ReachableOn(c, s, l);
      var rest;
      rest, t := RunsOut(c, Apply(c, s, l));
      RunsMore(c, s, l, rest, t);
      labels := [l] + rest;
      assert labels[1..] == rest;
      forall w: nat | w < |s.workers| && Blocked(c, s.pipes, s.workers[w]) ensures Stuck(c, t) {
        BlockedStays(c, s, l, w);
      }
    }
  }

  lemma {:induction false} BlockedFrame(c: Config, clock: nat, chans: Channels, pipes: Pipes, k: Worker, a: Action,
                                        other: Worker)
    requires ActionEnabled(c, chans, pipes, k, a) && Paired(c, pipes, k) && pipes.procs.Keys == pipes.sent.Keys
    requires Blocked(c, pipes, other) && other.proc != k.proc
    ensures Blocked(c, Piped(c, chans, pipes, k, a), other)
  {
    PipedFrame(c, clock, chans, pipes, k, a);
  }

  lemma {:induction false} BlockedWaits(c: Config, chans: Channels, pipes: Pipes, k: Worker, a: Action)
    requires Blocked(c, pipes, k)
    ensures !ActionEnabled(c, chans, pipes, k, a)
  {
  }

  lemma {:induction false} BlockedWorks(c: Config, s: Pool, v: nat, a: Action, w: nat)
    requires PairingOk(c, s.workers, s.pipes) && v < |s.workers| && ActionEnabled(c, s.chans, s.pipes, s.workers[v], a)
    requires w < |s.workers| && Blocked(c, s.pipes, s.workers[w])
    ensures v != w && Blocked(c, Piped(c, s.chans, s.pipes, s.workers[v], a), s.workers[w])
  {
    if v == w { BlockedWaits(c, s.chans, s.pipes, s.workers[w], a); }
    PairAt(c, s.workers, s.pipes, v);
    BlockedFrame(c, s.clock, s.chans, s.pipes, s.workers[v], a, s.workers[w]);
  }

  /** No step of feeder, workers or collector frees a blocked worker. */
  lemma {:induction false} BlockedStays(c: Config, s: Pool, l: Label, w: nat)
    requires PairingOk(c, s.workers, s.pipes) && Enabled(c, s, l) && IsPoolStep(l)
    requires w < |s.workers| && Blocked(c, s.pipes, s.workers[w])
    ensures var t := Apply(c, s, l); w < |t.workers| && Blocked(c, t.pipes, t.workers[w])
  {
    if l.Work? { BlockedWorks(c, s, l.w, l.a, w); }
  }

  lemma {:induction false} BlockedEvents(c: Config, chans: Channels, pipes: Pipes, p: ProcId, e: Event, k: Worker)
    requires EventEnabled(pipes, p, e) && Paired(c, pipes, k) && Blocked(c, pipes, k)
    ensures k.proc != Some(p) ==> Blocked(c, EventApply(pipes, p, e), k)
    ensures k.proc == Some(p) ==>
              (e.Listen? && ActionEnabled(c, chans, EventApply(pipes, p, e), k, Write)) ||
              (e.Die? && ActionEnabled(c, chans, EventApply(pipes, p, e), k, WriteFail))
  {
  }

  lemma {:induction false} BlockedWrite(c: Config, chans: Channels, pipes: Pipes, k: Worker)
    ensures Blocked(c, pipes, k) ==>
              !ActionEnabled(c, chans, pipes, k, Write) && !ActionEnabled(c, chans, pipes, k, WriteFail)
    ensures ActionEnabled(c, chans, pipes, k, Write) ==> !ActionEnabled(c, chans, pipes, k, WriteFail)
  {
  }

  lemma {:induction false} BlockedAsIs(c: Config, s: Pool, l: Label, w: nat)
    requires PairingOk(c, s.workers, s.pipes) && Enabled(c, s, l)
    requires w < |s.workers| && Blocked(c, s.pipes, s.workers[w])
    ensures w < |Apply(c, s, l).workers| && Apply(c, s, l).workers[w] == s.workers[w]
  {
    if l.Work? { BlockedWorks(c, s, l.w, l.a, w); }
  }

  /** Only its own subprocess frees a blocked worker, and whatever that does next frees it: the write goes through
      once the subprocess listens, and fails once it is dead. */
  lemma {:induction false} FreedIff(c: Config, s: Pool, l: Label, w: nat, p: ProcId)
    requires PairingOk(c, s.workers, s.pipes) && Enabled(c, s, l)
    requires w < |s.workers| && Blocked(c, s.pipes, s.workers[w]) && s.workers[w].proc == Some(p)
    ensures Enabled(c, s, Sub(p, Listen)) && Enabled(c, s, Sub(p, Die))
    ensures Enabled(c, Apply(c, s, l), Work(w, Write)) <==> l == Sub(p, Listen)
    ensures Enabled(c, Apply(c, s, l), Work(w, WriteFail)) <==> l == Sub(p, Die)
  {
    assert Paired(c, s.pipes, s.workers[w]);
    var t := Apply(c, s, l);
    BlockedAsIs(c, s, l, w);
    BlockedWrite(c, t.chans, t.pipes, t.workers[w]);
    if l.Sub? {
      BlockedEvents(c, s.chans, s.pipes, l.p, l.e, s.workers[w]);
    } else if IsPoolStep(l) {
      BlockedStays(c, s, l, w);
    }
  }

  // ---------------------------------------------------------------- the line that does not fit

  /** The pool after `n` jobs for none of which a subprocess could be started. */
  ghost predicate Passed(c: Config, s: Pool, n: nat) {
    n <= |c.todo| && Reachable(c, s) && s.chans == Channels(Feeding, n, true, true, true) &&
    s.workers == Init(c).workers && s.pipes == Pipes(map[], map[])
  }

  lemma {:induction false} PassOn(c: Config, s: Pool, n: nat) returns (t: Pool)
    requires ValidConfig(c) && Passed(c, s, n) && n < |c.todo|
    ensures Passed(c, t, n + 1)
  {
    var idle := Worker(Receiving, None, 0);
    assert s.workers[0] == idle;
    ReachableOn(c, s, Feeder(Feed(0)));
    var s1 := Apply(c, s, Feeder(Feed(0)));
    assert s1.workers[0] == Worker(Got(c.todo[n]), None, 0);
    ReachableOn(c, s1, Work(0, SpawnFail));
    var s2 := Apply(c, s1, Work(0, SpawnFail));
    assert s2.workers[0] == Worker(Offering(CrashResult(c.todo[n])), None, 0);
    ReachableOn(c, s2, Work(0, Deliver));
    t := Apply(c, s2, Work(0, Deliver));
    assert t.workers == s.workers[0 := idle] == s.workers;
  }

  lemma {:induction false} PassAll(c: Config, n: nat) returns (s: Pool)
    requires ValidConfig(c) && n <= |c.todo|
    ensures Passed(c, s, n)
  {
    if n == 0 {
      s := Init(c);
      assert Runs(c, s, [], s);
    } else {
      var before := PassAll(c, n - 1);
      s := PassOn(c, before, n - 1);
    }
  }

  /** A job whose line does not fit can block the worker it is fed to. */
  lemma {:induction false} LongLineBlocks(c: Config, n: nat) returns (t: Pool)
    requires ValidConfig(c) && n < |c.todo| && c.line(c.todo[n]).Some? && c.line(c.todo[n]).value > c.capacity
    ensures Reachable(c, t) && |t.workers| == c.workers && Blocked(c, t.pipes, t.workers[0])
  {
    var s := PassAll(c, n);
    var j := c.todo[n];
    assert s.workers[0] == Worker(Receiving, None, 0);
    ReachableOn(c, s, Feeder(Feed(0)));
    var s1 := Apply(c, s, Feeder(Feed(0)));
    assert s1.workers[0] == Worker(Got(j), None, 0);
    ReachableOn(c, s1, Work(0, Spawn(0)));
    var s2 := Apply(c, s1, Work(0, Spawn(0)));
    assert s2.workers[0] == Worker(Ready(j), Some(0), 0);
    ReachableOn(c, s2, Work(0, Stamp));
    var s3 := Apply(c, s2, Work(0, Stamp));
    assert s3.workers[0] == Worker(Stamped(j, s2.clock), Some(0), 0);
    ReachableOn(c, s3, Work(0, Store));
    t := Apply(c, s3, Work(0, Store));
    assert t.workers[0] == Worker(Stored(j), Some(0), 0);
  }

  /** Feeder, workers and collector can by themselves bring the run to its end. */
  ghost predicate EndsAlone(c: Config, s: Pool) {
    exists labels, t :: Runs(c, s, labels, t) && !t.chans.collecting && PoolSteps(labels) == |labels|
  }

  lemma {:induction false} PoolStepsBound(labels: seq<Label>)
    ensures PoolSteps(labels) <= |labels|
  {
    if labels == [] {
    } else {
      PoolStepsBound(labels[1..]);
    }
  }

  lemma {:induction false} StuckNeverEnds(c: Config, s: Pool)
    requires Stuck(c, s)
    ensures !EndsAlone(c, s)
  {
    forall labels, t | Runs(c, s, labels, t) && PoolSteps(labels) == |labels| ensures t.chans.collecting {
      FirstMoves(c, s, labels, t);
    }
  }

  lemma {:induction false} FirstMoves(c: Config, s: Pool, labels: seq<Label>, t: Pool)
    requires Runs(c, s, labels, t) && PoolSteps(labels) == |labels|
    ensures labels == [] || CanMove(c, s)
  {
    if labels == [] {
    } else {
      PoolStepsBound(labels[1..]);
      assert IsPoolStep(labels[0]) && Enabled(c, s, labels[0]);
    }
  }

  /** A worker's write is the one place where a run waits without a deadline: no reachable state is stuck,
      and from each the run can end without a subprocess's help, if and only if every request line fits
      into an unread pipe. */
  lemma {:induction false} NeverStuckIff(c: Config)
    requires ValidConfig(c)
    ensures (forall s :: Reachable(c, s) ==> !Stuck(c, s)) <==> EveryLineFits(c)
    ensures (forall s :: Reachable(c, s) ==> EndsAlone(c, s)) <==> EveryLineFits(c)
  {
    if EveryLineFits(c) {
      forall s | Reachable(c, s) ensures !Stuck(c, s) && EndsAlone(c, s) {
        RunsToItsEnd(c, s);
      }
    } else {
      var s := LongLineStuck(c);
      StuckNeverEnds(c, s);
    }
  }

  lemma {:induction false} RunsToItsEnd(c: Config, s: Pool)
    requires ValidConfig(c) && EveryLineFits(c) && Reachable(c, s)
    ensures !Stuck(c, s) && EndsAlone(c, s)
  {
    if s.chans.collecting { NeverStuck(c, s); }
    var labels, t := RunsOut(c, s);
    if t.chans.collecting { NeverStuck(c, t); }
  }

  lemma {:induction false} LongLineStuck(c: Config) returns (t: Pool)
    requires ValidConfig(c) && !EveryLineFits(c)
    ensures Reachable(c, t) && Stuck(c, t)
  {
    var j :| j in c.todo && c.line(j).Some? && c.line(j).value > c.capacity;
    var n: nat :| n < |c.todo| && c.todo[n] == j;
    var s := LongLineBlocks(c, n);
    var labels;
    labels, t := RunsOut(c, s);
  }

  // ---------------------------------------------------------------- what gets recorded

  /** The two statuses a machine can cause. */
  predicate Machine(r: Result) {
    r.status == "crash" || r.status == "timeout"
  }

  ghost predicate Honest(r: Result, good: Result -> bool) {
    Machine(r) || good(r)
  }

  /** The result a worker carries, and the answers waiting in a pipe, are honest. */
  ghost predicate HonestPhase(ph: Phase, good: Result -> bool) {
    match ph
    case Answered(_, r, _) => Honest(r, good)
    case Deleted(_, r, _) => Honest(r, good)
    case Offering(r) => Honest(r, good)
    case _ => true
  }

  ghost predicate HonestOk(s: Pool, good: Result -> bool) {
    (forall w :: 0 <= w < |s.workers| ==> HonestPhase(s.workers[w].phase, good)) &&
    (forall p, k :: p in s.pipes.procs && 0 <= k < |s.pipes.procs[p].outbox| ==>
     Honest(s.pipes.procs[p].outbox[k], good)) &&
    (forall k :: 0 <= k < |s.record.log| ==> Honest(s.record.log[k], good))
  }

  /** A subprocess answers right, or with what its machine did to the job. */
  ghost predicate HonestLabel(l: Label, good: Result -> bool) {
    l.Sub? && l.e.Reply? ==> Honest(l.e.r, good)
  }

  ghost predicate HonestPipes(pipes: Pipes, good: Result -> bool) {
    forall p, k :: p in pipes.procs && 0 <= k < |pipes.procs[p].outbox| ==> Honest(pipes.procs[p].outbox[k], good)
  }

  lemma {:induction false} HonestMoves(c: Config, clock: nat, chans: Channels, pipes: Pipes, k: Worker, a: Action,
                                       good: Result -> bool)
    requires ActionEnabled(c, chans, pipes, k, a) && HonestPipes(pipes, good) && HonestPhase(k.phase, good)
    ensures HonestPhase(Moved(c, clock, chans, pipes, k, a).phase, good)
    ensures HonestPipes(Piped(c, chans, pipes, k, a), good)
  {
  }

  lemma {:induction false} HonestKept(c: Config, s: Pool, l: Label, good: Result -> bool)
    requires Enabled(c, s, l) && HonestOk(s, good) && HonestLabel(l, good)
    ensures HonestOk(Apply(c, s, l), good)
  {
    match l {
      case Work(w, a) =>
        HonestMoves(c, s.clock, s.chans, s.pipes, s.workers[w], a, good);
      case _ =>
    }
  }

  /** If every answer of a subprocess is good or the machine's fault, so is every recorded result. */
  lemma {:induction false} RecordsAreHonest(c: Config, s: Pool, labels: seq<Label>, t: Pool, good: Result -> bool)
    requires Runs(c, s, labels, t) && HonestOk(s, good)
    requires forall k :: 0 <= k < |labels| ==> HonestLabel(labels[k], good)
    ensures HonestOk(t, good)
    decreases |labels|
  {
    if labels == [] {
    } else {
      HonestKept(c, s, labels[0], good);
      RecordsAreHonest(c, Apply(c, s, labels[0]), labels[1..], t, good);
    }
  }

  /** Some run leads to `s` in which every answer is good or the machine's fault. */
  ghost predicate RanTo(c: Config, good: Result -> bool, s: Pool) {
    exists labels :: Runs(c, Init(c), labels, s) && forall k :: 0 <= k < |labels| ==> HonestLabel(labels[k], good)
  }

  lemma {:induction false} RanIsHonest(c: Config, good: Result -> bool, s: Pool)
    requires RanTo(c, good, s)
    ensures Reachable(c, s) && HonestOk(s, good)
  {
    var labels :| Runs(c, Init(c), labels, s) && forall k :: 0 <= k < |labels| ==> HonestLabel(labels[k], good);
    RecordsAreHonest(c, Init(c), labels, s, good);
  }

  lemma {:induction false} RanNowhere(c: Config, good: Result -> bool)
    ensures RanTo(c, good, Init(c))
  {
    assert Runs(c, Init(c), [], Init(c));
  }

  lemma {:induction false} RanOn(c: Config, good: Result -> bool, s: Pool, l: Label)
    requires RanTo(c, good, s) && Enabled(c, s, l) && HonestLabel(l, good)
    ensures RanTo(c, good, Apply(c, s, l))
  {
    var labels :| Runs(c, Init(c), labels, s) && forall k :: 0 <= k < |labels| ==> HonestLabel(labels[k], good);
    RunsOn(c, Init(c), labels, s, l);
  }

  /** One worker takes the only job to a fresh subprocess, up to the write of its request. */
  lemma {:induction false} OneJobStored(c: Config, good: Result -> bool) returns (s: Pool)
    requires ValidConfig(c) && c.todo != []
    ensures RanTo(c, good, s) && s.chans == Channels(Feeding, 1, true, true, true) && s.record == Record(map[], [])
    ensures |s.workers| == c.workers && s.workers[0] == Worker(Stored(c.todo[0]), Some(0), 0)
    ensures s.pipes.procs == map[0 := Proc(true, false, [], None, [])] && s.pipes.sent == map[0 := []]
  {
    var j := c.todo[0];
    RanNowhere(c, good);
    s := Init(c);
    RanOn(c, good, s, Feeder(Feed(0)));
    s := Apply(c, s, Feeder(Feed(0)));
    assert s.workers[0] == Worker(Got(j), None, 0);
    RanOn(c, good, s, Work(0, Spawn(0)));
    s := Apply(c, s, Work(0, Spawn(0)));
    assert s.workers[0] == Worker(Ready(j), Some(0), 0);
    RanOn(c, good, s, Work(0, Stamp));
    s := Apply(c, s, Work(0, Stamp));
    assert s.workers[0] == Worker(Stamped(j, s.clock), Some(0), 0);
    RanOn(c, good, s, Work(0, Store));
    s := Apply(c, s, Work(0, Store));
  }

  /** The pool between the write of the first job's request and the delivery of its result. */
  ghost predicate OnFirst(c: Config, good: Result -> bool, s: Pool) {
    RanTo(c, good, s) && s.chans == Channels(Feeding, 1, true, true, true) && s.record == Record(map[], []) &&
    |s.workers| > 0 && s.workers[0].proc == Some(0) && s.pipes.procs.Keys == {0} == s.pipes.sent.Keys
  }

  lemma {:induction false} OneJobSent(c: Config, good: Result -> bool) returns (s: Pool)
    requires ValidConfig(c) && c.todo != [] && c.line(c.todo[0]).Some? && c.line(c.todo[0]).value <= c.capacity
    ensures OnFirst(c, good, s) && s.workers[0].phase == Waiting(c.todo[0])
    ensures s.pipes.procs[0] == Proc(true, false, [c.todo[0]], None, [])
  {
    var none: seq<JobId> := [];
    assert none + [c.todo[0]] == [c.todo[0]];
    var t := OneJobStored(c, good);
    RanOn(c, good, t, Work(0, Write));
    s := Apply(c, t, Work(0, Write));
  }

  lemma {:induction false} OneJobTaken(c: Config, good: Result -> bool, j: JobId, t: Pool) returns (s: Pool)
    requires OnFirst(c, good, t) && t.workers[0].phase == Waiting(j)
    requires t.pipes.procs[0] == Proc(true, false, [j], None, [])
    ensures OnFirst(c, good, s) && s.workers[0].phase == Waiting(j)
    ensures s.pipes.procs[0] == Proc(true, false, [], Some(j), [])
  {
    var none: seq<JobId> := [];
    assert [j][1..] == none;
    RanOn(c, good, t, Sub(0, Read));
    s := Apply(c, t, Sub(0, Read));
  }

  lemma {:induction false} OneJobAnswered(c: Config, good: Result -> bool, r: Result, t: Pool) returns (s: Pool)
    requires OnFirst(c, good, t) && t.workers[0].phase == Waiting(r.id)
    requires t.pipes.procs[0] == Proc(true, false, [], Some(r.id), [])
    requires good(r)
    ensures OnFirst(c, good, s) && s.workers[0].phase == Answered(r.id, r, true)
  {
    var silent: seq<Result> := [];
    assert silent + [r] == [r];
    RanOn(c, good, t, Sub(0, Reply(r)));
    var u := Apply(c, t, Sub(0, Reply(r)));
    assert ProcOf(u.pipes, u.workers[0]).outbox == [r];
    RanOn(c, good, u, Work(0, Answer));
    s := Apply(c, u, Work(0, Answer));
  }

  lemma {:induction false} OneJobSettled(c: Config, good: Result -> bool, r: Result, t: Pool) returns (s: Pool)
    requires OnFirst(c, good, t) && t.workers[0].phase == Answered(r.id, r, true)
    ensures RanTo(c, good, s) && s.chans == t.chans && s.record == t.record && |s.workers| > 0
    ensures s.workers[0].phase == Offering(r)
  {
    RanOn(c, good, t, Work(0, Delete));
    var u := Apply(c, t, Work(0, Delete));
    assert u.workers[0].phase == Deleted(r.id, r, true);
    RanOn(c, good, u, Work(0, Settle));
    s := Apply(c, u, Work(0, Settle));
  }

  lemma {:induction false} OneJobDelivered(c: Config, good: Result -> bool, r: Result, t: Pool) returns (s: Pool)
    requires RanTo(c, good, t) && |t.workers| > 0 && t.workers[0].phase == Offering(r)
    requires t.chans.collecting && t.chans.resOpen && t.record.log == []
    ensures RanTo(c, good, s) && s.record.log == [r]
  {
    var none: seq<Result> := [];
    assert none + [r] == [r];
    RanOn(c, good, t, Work(0, Deliver));
    s := Apply(c, t, Work(0, Deliver));
  }

  /** In some run the first job is answered with `r`, which is recorded. */
  lemma {:induction false} OneJobRecorded(c: Config, good: Result -> bool, r: Result) returns (s: Pool)
    requires ValidConfig(c) && c.todo != [] && c.todo[0] == r.id && c.line(r.id).Some?
    requires c.line(r.id).value <= c.capacity && good(r)
    ensures RanTo(c, good, s) && s.record.log == [r]
  {
    var t := OneJobSent(c, good);
    t := OneJobTaken(c, good, r.id, t);
    t := OneJobAnswered(c, good, r, t);
    var u := OneJobSettled(c, good, r, t);
    s := OneJobDelivered(c, good, r, u);
  }
}
