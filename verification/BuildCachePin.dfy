/** The pinned build-cache janitor (pkg/tc39/cachejanitor.go, watchCachePinned and pinToBaseline) running
    beside the pool: a sweep is split into reading the clock, looking at the in-flight jobs one at a
    time, and checking and removing entries one at a time, each step interleaved with every other. */
module BuildCachePin {
  import opened Types
  import opened RunProtocol

  type Path = string

  /** `cutoffFirst` is the source's order, the clock read before the in-flight jobs are looked at; false
      models the opposite order. */
  datatype Setup = Setup(run: Config, baseline: set<Path>, cutoffFirst: bool)

  /** A sweep in progress. `pending` holds the jobs that were in flight when the scan began and that it
      has not looked at, `left` the entries that were there when the walk began and that it has not come to;
      `Doomed` is between the check of an entry's age and its removal. */
  datatype Sweep =
    | Idle
    | Scanning(now: nat, pending: set<JobId>, oldest: Option<nat>)
    | Visiting(cutoff: nat, left: set<Path>)
    | Doomed(cutoff: nat, left: set<Path>, path: Path)

  /** `files` maps the cache entries to their modification times; `owner` records which job's build
      wrote a path first and is not read by the program. */
  datatype World = World(pool: Pool, files: map<Path, nat>, owner: map<Path, JobId>, sweep: Sweep)

  datatype Move =
    | Base(l: Label)
    | BuildWrite(w: nat, path: Path)
    | SweepStart | Look(j: JobId) | FixCutoff | Check(path: Path) | Remove | SweepEnd

  function Start(u: Setup): World {
    World(Init(u.run), map p | p in u.baseline :: 0, map[], Idle)
  }

  /** The job whose build worker `w`'s subprocess is executing. */
  predicate Building(s: Pool, w: nat) {
    w < |s.workers| && s.workers[w].phase.Waiting? && HasProc(s.pipes, s.workers[w]) &&
    ProcOf(s.pipes, s.workers[w]).alive && ProcOf(s.pipes, s.workers[w]).running == Some(s.workers[w].phase.job)
  }

  predicate CanTake(u: Setup, s: World, m: Move) {
    match m
    case Base(l) => Enabled(u.run, s.pool, l)
    case BuildWrite(w, p) =>
      Building(s.pool, w) && (p !in u.baseline && p in s.owner ==> s.owner[p] == s.pool.workers[w].phase.job)
    case SweepStart => s.sweep.Idle?
    case Look(j) => s.sweep.Scanning? && (j in s.sweep.pending || j in s.pool.flight.inflight)
    case FixCutoff => s.sweep.Scanning? && s.sweep.pending == {}
    case Check(p) => s.sweep.Visiting? && p in s.files
    case Remove => s.sweep.Doomed?
    case SweepEnd => s.sweep.Visiting? && s.sweep.left !! s.files.Keys
  }

  function Earlier(a: Option<nat>, b: nat): nat {
    if a.Some? && a.value < b then a.value else b
  }

  function Take(u: Setup, s: World, m: Move): World
    requires CanTake(u, s, m)
  {
    match m
    case Base(l) => s.(pool := Apply(u.run, s.pool, l))
    case BuildWrite(w, p) =>
      var j := s.pool.workers[w].phase.job;
      s.(files := s.files[p := s.pool.clock], owner := if p in u.baseline then s.owner else s.owner[p := j])
    case SweepStart => s.(sweep := Scanning(s.pool.clock, s.pool.flight.inflight.Keys, None))
    case Look(j) =>
      var seen :=
        if j in s.pool.flight.inflight then Some(Earlier(s.sweep.oldest, s.pool.flight.inflight[j]))
        else s.sweep.oldest;
      s.(sweep := Scanning(s.sweep.now, s.sweep.pending - {j}, seen))
    case FixCutoff =>
      var now := if u.cutoffFirst then s.sweep.now else s.pool.clock;
      s.(sweep := Visiting(Earlier(s.sweep.oldest, now), s.files.Keys))
    case Check(p) =>
      var left := s.sweep.left - {p};
      s.(sweep := if p in u.baseline || s.files[p] >= s.sweep.cutoff then Visiting(s.sweep.cutoff, left)
                  else Doomed(s.sweep.cutoff, left, p))
    case Remove => s.(files := s.files - {s.sweep.path}, sweep := Visiting(s.sweep.cutoff, s.sweep.left))
    case SweepEnd => s.(sweep := Idle)
  }

  // ---------------------------------------------------------------- the invariant

  /** Entries of jobs in flight exist and are no older than the moment their job was stored. */
  ghost predicate FilesOk(u: Setup, s: World) {
    u.baseline <= s.files.Keys && s.files.Keys <= u.baseline + s.owner.Keys && u.baseline !! s.owner.Keys &&
    (forall p :: p in s.owner ==> s.owner[p] in s.pool.flight.startedAt) &&
    (forall p :: p in s.owner && s.owner[p] in s.pool.flight.inflight ==>
       p in s.files && s.owner[p] in s.pool.flight.startedAt && s.files[p] >= s.pool.flight.startedAt[s.owner[p]])
  }

  /** No job in flight was stored before the cutoff. */
  ghost predicate CutoffOk(flight: Flight, cutoff: nat) {
    forall j :: j in flight.inflight ==> j in flight.startedAt && flight.startedAt[j] >= cutoff
  }

  ghost predicate SweepOk(u: Setup, s: World) {
    var flight := s.pool.flight;
    match s.sweep
    case Idle => true
    case Scanning(now, pending, oldest) =>
      now <= s.pool.clock &&
      forall j :: j in flight.inflight && j !in pending ==>
        j in flight.startedAt && (flight.startedAt[j] >= now || (oldest.Some? && oldest.value <= flight.inflight[j]))
    case Visiting(cutoff, _) => cutoff <= s.pool.clock && CutoffOk(flight, cutoff)
    case Doomed(cutoff, _, p) =>
      cutoff <= s.pool.clock && CutoffOk(flight, cutoff) &&
      p !in u.baseline && p in s.owner && s.owner[p] !in flight.inflight
  }

  ghost predicate PinInv(u: Setup, s: World) {
    Inv(u.run, s.pool) && FilesOk(u, s) && SweepOk(u, s)
  }

  /** How a step of the pool changes the in-flight map: not at all, by a job never stored before and
      stamped now, or by taking one away. */
  ghost predicate FlightStep(before: Flight, after: Flight, clock: nat) {
    after == before ||
    (exists j, at: nat :: j !in before.startedAt && at <= clock && after == Added(before, j, at, clock)) ||
    (exists j :: after == Without(before, j))
  }

  function Added(flight: Flight, j: JobId, at: nat, clock: nat): Flight {
    Flight(flight.inflight[j := at], flight.startedAt[j := clock])
  }

  function Without(flight: Flight, j: JobId): Flight {
    flight.(inflight := flight.inflight - {j})
  }

  lemma {:induction false} PoolStep(c: Config, s: Pool, l: Label)
    requires Inv(c, s) && Enabled(c, s, l)
    ensures FlightStep(s.flight, Apply(c, s, l).flight, s.clock) && s.clock <= Apply(c, s, l).clock
  {
    if l.Work? {
      var k := s.workers[l.w];
      MovedFlight(c, s.clock, s.chans, s.pipes, k, l.a);
      if l.a.Store? {
        assert k.phase.job !in s.flight.startedAt && k.phase.at <= s.clock;
        assert Apply(c, s, l).flight == Added(s.flight, k.phase.job, k.phase.at, s.clock);
      }
      if l.a.Delete? {
        assert Apply(c, s, l).flight == Without(s.flight, k.phase.job);
      }
    }
  }

  lemma {:induction false} FlightStepFiles(u: Setup, s: World, pool: Pool)
    requires FilesOk(u, s) && SweepOk(u, s) && FlightStep(s.pool.flight, pool.flight, s.pool.clock)
    requires s.pool.clock <= pool.clock
    ensures FilesOk(u, s.(pool := pool)) && SweepOk(u, s.(pool := pool))
  {
  }

  /** Files and sweep after job `j` in flight wrote path `p`. */
  function Written(u: Setup, s: World, p: Path, j: JobId): World {
    s.(files := s.files[p := s.pool.clock], owner := if p in u.baseline then s.owner else s.owner[p := j])
  }

  lemma {:induction false} WriteKeepsFiles(u: Setup, s: World, p: Path, j: JobId)
    requires FilesOk(u, s) && j in s.pool.flight.inflight && StampsOk(s.pool)
    requires p !in u.baseline && p in s.owner ==> s.owner[p] == j
    ensures FilesOk(u, Written(u, s, p, j))
  {
  }

  lemma {:induction false} WriteKeepsSweep(u: Setup, s: World, p: Path, j: JobId)
    requires SweepOk(u, s) && j in s.pool.flight.inflight && u.baseline !! s.owner.Keys
    requires p !in u.baseline && p in s.owner ==> s.owner[p] == j
    ensures SweepOk(u, Written(u, s, p, j))
  {
  }

  lemma {:induction false} BuilderFlies(u: Setup, s: Pool, w: nat)
    requires Inv(u.run, s) && Building(s, w)
    ensures s.workers[w].phase.job in s.flight.inflight && StampsOk(s)
  {
    assert Flying(s.workers[w].phase);
  }

  lemma {:induction false} BuildKept(u: Setup, s: World, w: nat, p: Path)
    requires PinInv(u, s) && CanTake(u, s, BuildWrite(w, p))
    ensures PinInv(u, Take(u, s, BuildWrite(w, p)))
  {
    var j := s.pool.workers[w].phase.job;
    BuilderFlies(u, s.pool, w);
    WriteKeepsFiles(u, s, p, j);
    WriteKeepsSweep(u, s, p, j);
    assert Take(u, s, BuildWrite(w, p)) == Written(u, s, p, j);
  }

  ghost predicate StampsOk(s: Pool) {
    forall j :: j in s.flight.inflight ==>
      j in s.flight.startedAt && s.flight.inflight[j] <= s.flight.startedAt[j] <= s.clock
  }

  lemma {:induction false} ScanKept(u: Setup, s: World, m: Move)
    requires u.cutoffFirst && SweepOk(u, s) && StampsOk(s.pool) && CanTake(u, s, m)
    requires m.SweepStart? || m.Look? || m.FixCutoff?
    ensures SweepOk(u, Take(u, s, m))
  {
  }

  lemma {:induction false} VisitKept(u: Setup, s: World, m: Move)
    requires FilesOk(u, s) && SweepOk(u, s) && CanTake(u, s, m)
    requires m.Check? || m.Remove? || m.SweepEnd?
    ensures SweepOk(u, Take(u, s, m)) && FilesOk(u, Take(u, s, m))
  {
  }

  lemma {:induction false} PinKept(u: Setup, s: World, m: Move)
    requires ValidConfig(u.run) && u.cutoffFirst && PinInv(u, s) && CanTake(u, s, m)
    ensures PinInv(u, Take(u, s, m))
  {
    match m {
      case Base(l) =>
        InvKept(u.run, s.pool, l);
        PoolStep(u.run, s.pool, l);
        FlightStepFiles(u, s, Apply(u.run, s.pool, l));
      case BuildWrite(w, p) => BuildKept(u, s, w, p);
      case Check(_) => VisitKept(u, s, m);
      case Remove => VisitKept(u, s, m);
      case SweepEnd => VisitKept(u, s, m);
      case _ => ScanKept(u, s, m);
    }
  }

  ghost predicate Goes(u: Setup, s: World, moves: seq<Move>, t: World)
    decreases |moves|
  {
    if moves == [] then s == t
    else CanTake(u, s, moves[0]) && Goes(u, Take(u, s, moves[0]), moves[1..], t)
  }

  lemma {:induction false} GoesInv(u: Setup, s: World, moves: seq<Move>, t: World)
    requires ValidConfig(u.run) && u.cutoffFirst && PinInv(u, s) && Goes(u, s, moves, t)
    ensures PinInv(u, t)
    decreases |moves|
  {
    if moves == [] {
    } else {
      PinKept(u, s, moves[0]);
      GoesInv(u, Take(u, s, moves[0]), moves[1..], t);
    }
  }

  /** The entry about to be removed belongs to the baseline, or to the build of a job in flight. */
  ghost predicate Harmful(u: Setup, s: World) {
    s.sweep.Doomed? &&
    (s.sweep.path in u.baseline || (s.sweep.path in s.owner && s.owner[s.sweep.path] in s.pool.flight.inflight))
  }

  /** In every interleaving, at the moment a sweep removes an entry, that entry is not in the baseline
      and was not written by a job still in flight; and until then every entry of such a job is there. */
  lemma {:induction false} SweepsAreSafe(u: Setup, moves: seq<Move>, s: World)
    requires ValidConfig(u.run) && u.cutoffFirst && Goes(u, Start(u), moves, s)
    ensures !Harmful(u, s)
    ensures s.sweep.Doomed? ==>
              s.sweep.path !in u.baseline && s.sweep.path in s.owner &&
              s.owner[s.sweep.path] !in s.pool.flight.inflight
    ensures u.baseline <= s.files.Keys
    ensures forall p :: p in s.owner && s.owner[p] in s.pool.flight.inflight ==> p in s.files
  {
    InvInit(u.run);
    assert PinInv(u, Start(u));
    GoesInv(u, Start(u), moves, s);
  }

  // ---------------------------------------------------------------- why the order matters

  lemma {:induction false} GoesStep(u: Setup, s: World, m: Move, moves: seq<Move>, t: World)
    requires CanTake(u, s, m) && Goes(u, Take(u, s, m), moves, t)
    ensures Goes(u, s, [m] + moves, t)
  {
    assert ([m] + moves)[1..] == moves;
  }

  const JOB := "a"
  const ENTRY := "e"

  /** One job, one worker, a line that fits, an empty baseline, and the clock read after the scan. */
  function LateSetup(): Setup {
    Setup(Config([JOB], 1, 0, false, 1, _ => Some(1)), {}, false)
  }

  /** The job is fed, stored and sent to a fresh subprocess, which starts on it, while the sweep, begun
      before the Store, has nothing left to look at. */
  function LateWorld(phase: Phase, proc: Option<ProcId>, fed: nat, pipes: Pipes, flight: Flight): World {
    World(Pool(0, false, Channels(Feeding, fed, true, true, true), [Worker(phase, proc, 0)], pipes, flight,
               Record(map[], [])),
          map[], map[], Scanning(0, {}, None))
  }

  lemma {:induction false} GoesOn(u: Setup, s: World, moves: seq<Move>, t: World, m: Move)
    requires Goes(u, s, moves, t) && CanTake(u, t, m)
    ensures Goes(u, s, moves + [m], Take(u, t, m))
    decreases |moves|
  {
    if moves == [] {
      GoesStep(u, s, m, [], Take(u, s, m));
    } else {
      GoesOn(u, Take(u, s, moves[0]), moves[1..], t, m);
      GoesStep(u, s, moves[0], moves[1..] + [m], Take(u, t, m));
      assert [moves[0]] + (moves[1..] + [m]) == moves + [m];
    }
  }

  /** Appends one move, whose outcome is `t`, to a run of the late setup. */
  lemma {:induction false} LateMove(moves: seq<Move>, s: World, m: Move, t: World) returns (more: seq<Move>)
    requires Goes(LateSetup(), Start(LateSetup()), moves, s) && CanTake(LateSetup(), s, m)
    requires Take(LateSetup(), s, m) == t
    ensures Goes(LateSetup(), Start(LateSetup()), more, t)
  {
    GoesOn(LateSetup(), Start(LateSetup()), moves, s, m);
    more := moves + [m];
  }

  const NO_PIPES := Pipes(map[], map[])
  const QUIET := Pipes(map[0 := Proc(true, false, [], None, [])], map[0 := []])
  const ASKED := Pipes(map[0 := Proc(true, false, [JOB], None, [])], map[0 := [JOB]])
  const BUSY := Pipes(map[0 := Proc(true, false, [], Some(JOB), [])], map[0 := [JOB]])
  const NO_FLIGHT := Flight(map[], map[])
  const FLYING := Flight(map[JOB := 0], map[JOB := 0])

  lemma {:induction false} LateFed() returns (moves: seq<Move>, s: World)
    ensures Goes(LateSetup(), Start(LateSetup()), moves, s)
    ensures s == LateWorld(Ready(JOB), Some(0), 1, QUIET, NO_FLIGHT)
  {
    var u := LateSetup();
    assert Start(u).pool.workers == [Worker(Receiving, None, 0)];
    assert Start(u).files == map[] && Start(u).pool.flight.inflight.Keys == {};
    var s1 := LateWorld(Receiving, None, 0, NO_PIPES, NO_FLIGHT);
    var s2 := LateWorld(Got(JOB), None, 1, NO_PIPES, NO_FLIGHT);
    s := LateWorld(Ready(JOB), Some(0), 1, QUIET, NO_FLIGHT);
    moves := LateMove([], Start(u), SweepStart, s1);
    moves := LateMove(moves, s1, Base(Feeder(Feed(0))), s2);
    moves := LateMove(moves, s2, Base(Work(0, Spawn(0))), s);
  }

  lemma {:induction false} LateStored() returns (moves: seq<Move>, s: World)
    ensures Goes(LateSetup(), Start(LateSetup()), moves, s)
    ensures s == LateWorld(Stored(JOB), Some(0), 1, QUIET, FLYING)
  {
    moves, s := LateFed();
    var s4 := LateWorld(Stamped(JOB, 0), Some(0), 1, QUIET, NO_FLIGHT);
    moves := LateMove(moves, s, Base(Work(0, Stamp)), s4);
    s := LateWorld(Stored(JOB), Some(0), 1, QUIET, FLYING);
    moves := LateMove(moves, s4, Base(Work(0, Store)), s);
  }

  lemma {:induction false} LateSent() returns (moves: seq<Move>, s: World)
    ensures Goes(LateSetup(), Start(LateSetup()), moves, s)
    ensures s == LateWorld(Waiting(JOB), Some(0), 1, ASKED, FLYING)
  {
    var u := LateSetup();
    var t;
    moves, t := LateStored();
    var none: seq<JobId> := [];
    assert none + [JOB] == [JOB];
    s := LateWorld(Waiting(JOB), Some(0), 1, ASKED, FLYING);
    assert Take(u, t, Base(Work(0, Write))).pool.pipes.procs == ASKED.procs;
    assert Take(u, t, Base(Work(0, Write))).pool.pipes.sent == ASKED.sent;
    moves := LateMove(moves, t, Base(Work(0, Write)), s);
  }

  lemma {:induction false} LateRunStarts() returns (moves: seq<Move>, s: World)
    ensures Goes(LateSetup(), Start(LateSetup()), moves, s)
    ensures s == LateWorld(Waiting(JOB), Some(0), 1, BUSY, FLYING)
  {
    var u := LateSetup();
    var t;
    moves, t := LateSent();
    var none: seq<JobId> := [];
    assert [JOB][1..] == none;
    s := LateWorld(Waiting(JOB), Some(0), 1, BUSY, FLYING);
    assert Take(u, t, Base(Sub(0, Read))).pool.pipes.procs == BUSY.procs;
    assert Take(u, t, Base(Sub(0, Read))).pool.pipes.sent == BUSY.sent;
    moves := LateMove(moves, t, Base(Sub(0, Read)), s);
  }

  /** Read after the scan, the cutoff lets a sweep remove an entry of a job in flight. */
  lemma {:induction false} LateCutoffIsUnsafe() returns (moves: seq<Move>, s: World)
    ensures Goes(LateSetup(), Start(LateSetup()), moves, s) && Harmful(LateSetup(), s)
  {
    var u := LateSetup();
    moves, s := LateRunStarts();
    GoesOn(u, Start(u), moves, s, BuildWrite(0, ENTRY));
    moves, s := moves + [BuildWrite(0, ENTRY)], Take(u, s, BuildWrite(0, ENTRY));
    GoesOn(u, Start(u), moves, s, Base(Tick));
    moves, s := moves + [Base(Tick)], Take(u, s, Base(Tick));
    GoesOn(u, Start(u), moves, s, FixCutoff);
    moves, s := moves + [FixCutoff], Take(u, s, FixCutoff);
    assert s.sweep == Visiting(1, {ENTRY}) && s.files == map[ENTRY := 0];
    GoesOn(u, Start(u), moves, s, Check(ENTRY));
    moves, s := moves + [Check(ENTRY)], Take(u, s, Check(ENTRY));
  }

  ghost predicate SafeWith(cutoffFirst: bool) {
    forall u: Setup, moves: seq<Move>, s: World ::
      u.cutoffFirst == cutoffFirst && ValidConfig(u.run) && Goes(u, Start(u), moves, s) ==> !Harmful(u, s)
  }

  /** Sweeps are safe in every run exactly because the cutoff is read before the in-flight jobs. */
  lemma {:induction false} SafeIffCutoffFirst(cutoffFirst: bool)
    ensures SafeWith(cutoffFirst) <==> cutoffFirst
  {
    if cutoffFirst {
      forall u: Setup, moves: seq<Move>, s: World | u.cutoffFirst && ValidConfig(u.run) && Goes(u, Start(u), moves, s)
        ensures !Harmful(u, s)
      {
        SweepsAreSafe(u, moves, s);
      }
    } else {
      var moves, s := LateCutoffIsUnsafe();
      assert ValidConfig(LateSetup().run);
    }
  }
}
