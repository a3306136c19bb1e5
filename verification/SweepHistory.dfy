/** Whole runs of pool and pinned janitor as their moves tell them: what the cutoff of a sweep is, what the sweep
    removes, and what it leaves (pkg/tc39/cachejanitor.go, watchCachePinned and pinToBaseline). */
module SweepHistory {
  import opened Types
  import opened RunProtocol
  import opened BuildCachePin

  ghost predicate Leads(u: Setup, s: World, m: Move, t: World) {
    CanTake(u, s, m) && t == Take(u, s, m)
  }

  /** A run from the start in the source's order, and the states it goes through. */
  ghost predicate Traced(u: Setup, moves: seq<Move>, states: seq<World>) {
    ValidConfig(u.run) && u.cutoffFirst && |states| == |moves| + 1 && states[0] == Start(u) &&
    forall n: nat {:trigger moves[n]} :: n < |moves| ==> Leads(u, states[n], moves[n], states[n + 1])
  }

  lemma {:induction false} TracedStep(u: Setup, moves: seq<Move>, states: seq<World>, n: nat)
    requires Traced(u, moves, states) && n < |moves|
    ensures Leads(u, states[n], moves[n], states[n + 1])
  {
  }

  lemma {:induction false} TracedInv(u: Setup, moves: seq<Move>, states: seq<World>, n: nat)
    requires Traced(u, moves, states) && n <= |moves|
    ensures PinInv(u, states[n])
  {
    if n == 0 {
      InvInit(u.run);
    } else {
      TracedInv(u, moves, states, n - 1);
      TracedStep(u, moves, states, n - 1);
      PinKept(u, states[n - 1], moves[n - 1]);
    }
  }

  // ---------------------------------------------------------------- the cutoff

  /** The sweep that started with move `a` is still going on before move `n`. */
  ghost predicate InSweep(moves: seq<Move>, a: nat, n: nat) {
    a < n <= |moves| && moves[a].SweepStart? && forall i :: a < i < n ==> !moves[i].SweepEnd?
  }

  /** Move `i` looks at job `j`, which is in flight with stamp `at`. */
  predicate Sees(moves: seq<Move>, states: seq<World>, i: nat, j: JobId, at: nat) {
    i < |moves| && i < |states| && moves[i] == Look(j) && j in states[i].pool.flight.inflight &&
    states[i].pool.flight.inflight[j] == at
  }

  /** Between moves `a` and `n` some job was seen in flight with stamp `at`. */
  ghost predicate Seen(moves: seq<Move>, states: seq<World>, a: nat, n: nat, at: nat) {
    exists i: nat, j :: a < i < n && Sees(moves, states, i, j, at)
  }

  /** The least stamp seen, if any was. */
  ghost predicate IsOldest(moves: seq<Move>, states: seq<World>, a: nat, n: nat, oldest: Option<nat>) {
    match oldest
    case None => forall at: nat :: !Seen(moves, states, a, n, at)
    case Some(least) =>
      Seen(moves, states, a, n, least) && forall at: nat :: Seen(moves, states, a, n, at) ==> least <= at
  }

  /** The smaller of the clock when the sweep started and the least stamp it saw. */
  ghost predicate IsCutoff(moves: seq<Move>, states: seq<World>, a: nat, n: nat, cutoff: nat)
    requires a < |states|
  {
    cutoff <= states[a].pool.clock && (forall at: nat :: Seen(moves, states, a, n, at) ==> cutoff <= at) &&
    (cutoff == states[a].pool.clock || Seen(moves, states, a, n, cutoff))
  }

  ghost predicate CutoffAt(moves: seq<Move>, states: seq<World>, a: nat, n: nat)
    requires a < |states| && n < |states|
  {
    match states[n].sweep
    case Idle => false
    case Scanning(now, _, oldest) => now == states[a].pool.clock && IsOldest(moves, states, a, n, oldest)
    case Visiting(cutoff, _) => IsCutoff(moves, states, a, n, cutoff)
    case Doomed(cutoff, _, _) => IsCutoff(moves, states, a, n, cutoff)
  }

  lemma {:induction false} SeenMore(moves: seq<Move>, states: seq<World>, a: nat, n: nat, at: nat)
    requires a < n < |moves| && n < |states|
    ensures Seen(moves, states, a, n + 1, at) <==>
            Seen(moves, states, a, n, at) || (moves[n].Look? && Sees(moves, states, n, moves[n].j, at))
  {
    if moves[n].Look? && Sees(moves, states, n, moves[n].j, at) {
      assert a < n < n + 1;
    }
  }

  lemma {:induction false} NothingSeen(moves: seq<Move>, states: seq<World>, a: nat, n: nat, next: nat)
    requires a < n < next == n + 1 && n < |moves| && n < |states|
    requires moves[n].Look? ==> moves[n].j !in states[n].pool.flight.inflight
    ensures forall oldest :: IsOldest(moves, states, a, n, oldest) ==> IsOldest(moves, states, a, next, oldest)
    ensures forall cutoff :: IsCutoff(moves, states, a, n, cutoff) ==> IsCutoff(moves, states, a, next, cutoff)
  {
    forall at: nat ensures Seen(moves, states, a, next, at) == Seen(moves, states, a, n, at) {
      SeenMore(moves, states, a, n, at);
    }
  }

  lemma {:induction false} OneMoreSeen(moves: seq<Move>, states: seq<World>, a: nat, n: nat, next: nat, j: JobId,
                                       oldest: Option<nat>)
    requires a < n < next == n + 1 && n < |moves| && n < |states|
    requires moves[n] == Look(j) && j in states[n].pool.flight.inflight && IsOldest(moves, states, a, n, oldest)
    ensures IsOldest(moves, states, a, next, Some(Earlier(oldest, states[n].pool.flight.inflight[j])))
  {
    var now := states[n].pool.flight.inflight[j];
    SeenMore(moves, states, a, n, now);
    if oldest.Some? { SeenMore(moves, states, a, n, oldest.value); }
    forall at: nat | Seen(moves, states, a, next, at) ensures Earlier(oldest, now) <= at {
      SeenMore(moves, states, a, n, at);
    }
  }

  lemma {:induction false} OldestFixes(moves: seq<Move>, states: seq<World>, a: nat, n: nat, oldest: Option<nat>)
    requires a < |states| && IsOldest(moves, states, a, n, oldest)
    ensures IsCutoff(moves, states, a, n, Earlier(oldest, states[a].pool.clock))
  {
  }

  lemma {:induction false} CutoffStep(u: Setup, moves: seq<Move>, states: seq<World>, a: nat, n: nat)
    requires Traced(u, moves, states) && InSweep(moves, a, n) && n < |moves| && !moves[n].SweepEnd?
    requires CutoffAt(moves, states, a, n)
    ensures CutoffAt(moves, states, a, n + 1)
  {
    TracedStep(u, moves, states, n);
    if moves[n].Look? && moves[n].j in states[n].pool.flight.inflight {
      OneMoreSeen(moves, states, a, n, n + 1, moves[n].j, states[n].sweep.oldest);
    } else {
      NothingSeen(moves, states, a, n, n + 1);
      if moves[n].FixCutoff? { OldestFixes(moves, states, a, n, states[n].sweep.oldest); }
    }
  }

  /** From its scan on a sweep's cutoff is the smaller of the clock when it started and the least in-flight
      stamp it looked at. */
  lemma {:induction false} CutoffIsLeast(u: Setup, moves: seq<Move>, states: seq<World>, a: nat, n: nat)
    requires Traced(u, moves, states) && InSweep(moves, a, n)
    ensures CutoffAt(moves, states, a, n)
  {
    TracedStep(u, moves, states, n - 1);
    if a + 1 < n {
      CutoffIsLeast(u, moves, states, a, n - 1);
      CutoffStep(u, moves, states, a, n - 1);
    }
  }

  // ---------------------------------------------------------------- file times

  predicate Writes(moves: seq<Move>, i: nat, p: Path) {
    i < |moves| && moves[i].BuildWrite? && moves[i].path == p
  }

  /** Move `b` is the last before `n` that writes entry `p`. */
  ghost predicate LastWrite(moves: seq<Move>, b: nat, p: Path, n: nat) {
    b < n && Writes(moves, b, p) && forall i: nat :: b < i < n ==> !Writes(moves, i, p)
  }

  ghost predicate TimeOk(u: Setup, moves: seq<Move>, states: seq<World>, n: nat, p: Path)
    requires n < |states| && n <= |moves| && p in states[n].files
  {
    (exists b: nat :: b < n && LastWrite(moves, b, p, n) && states[n].files[p] == states[b].pool.clock) ||
    (p in u.baseline && states[n].files[p] == 0 && forall i: nat :: i < n ==> !Writes(moves, i, p))
  }

  lemma {:induction false} FileStep(u: Setup, s: World, m: Move, p: Path)
    requires CanTake(u, s, m) && p in Take(u, s, m).files
    ensures if m.BuildWrite? && m.path == p then Take(u, s, m).files[p] == s.pool.clock
            else p in s.files && Take(u, s, m).files[p] == s.files[p]
  {
  }

  lemma {:induction false} LastWriteLater(moves: seq<Move>, b: nat, p: Path, n: nat)
    requires LastWrite(moves, b, p, n) && !Writes(moves, n, p)
    ensures LastWrite(moves, b, p, n + 1)
  {
  }

  lemma {:induction false} TimeKept(u: Setup, moves: seq<Move>, states: seq<World>, n: nat, p: Path)
    requires n < |moves| && n + 1 < |states| && p in states[n].files && p in states[n + 1].files
    requires states[n + 1].files[p] == states[n].files[p] && !Writes(moves, n, p) && TimeOk(u, moves, states, n, p)
    ensures TimeOk(u, moves, states, n + 1, p)
  {
    if b: nat :| b < n && LastWrite(moves, b, p, n) && states[n].files[p] == states[b].pool.clock {
      LastWriteLater(moves, b, p, n);
    }
  }

  lemma {:induction false} TimeStep(u: Setup, moves: seq<Move>, states: seq<World>, n: nat, p: Path)
    requires Traced(u, moves, states) && n < |moves| && p in states[n + 1].files
    requires p in states[n].files ==> TimeOk(u, moves, states, n, p)
    ensures TimeOk(u, moves, states, n + 1, p)
  {
    TracedStep(u, moves, states, n);
    FileStep(u, states[n], moves[n], p);
    if Writes(moves, n, p) {
      assert LastWrite(moves, n, p, n + 1);
    } else {
      TimeKept(u, moves, states, n, p);
    }
  }

  /** An entry carries the clock of its last write; one of the baseline not yet written is older than all. */
  lemma {:induction false} TimesAreWrites(u: Setup, moves: seq<Move>, states: seq<World>, n: nat, p: Path)
    requires Traced(u, moves, states) && n <= |moves| && p in states[n].files
    ensures TimeOk(u, moves, states, n, p)
  {
    if n > 0 {
      if p in states[n - 1].files { TimesAreWrites(u, moves, states, n - 1, p); }
      TimeStep(u, moves, states, n - 1, p);
    }
  }

  lemma {:induction false} LastWriteUnique(moves: seq<Move>, a: nat, b: nat, p: Path, n: nat)
    requires LastWrite(moves, a, p, n) && LastWrite(moves, b, p, n)
    ensures a == b
  {
  }

  // ---------------------------------------------------------------- what a sweep removes

  /** The entry was last written before the sweep started and before every stamp it saw. */
  ghost predicate Outdated(moves: seq<Move>, states: seq<World>, a: nat, n: nat, b: nat)
    requires a < |states| && b < |states|
  {
    states[b].pool.clock < states[a].pool.clock &&
    forall at: nat :: Seen(moves, states, a, n, at) ==> states[b].pool.clock < at
  }

  lemma {:induction false} BelowCutoffIff(moves: seq<Move>, states: seq<World>, a: nat, n: nat, b: nat, cutoff: nat)
    requires a < |states| && b < |states| && IsCutoff(moves, states, a, n, cutoff)
    ensures states[b].pool.clock < cutoff <==> Outdated(moves, states, a, n, b)
  {
  }

  /** A sweep that comes to an entry outside the baseline dooms it exactly when it was last written before the
      sweep started and before the stamp of every job it saw in flight. */
  lemma {:induction false} DoomedIff(u: Setup, moves: seq<Move>, states: seq<World>, a: nat, n: nat, b: nat, p: Path)
    requires Traced(u, moves, states) && InSweep(moves, a, n) && n < |moves| && moves[n] == Check(p)
    requires p !in u.baseline && LastWrite(moves, b, p, n)
    ensures states[n + 1].sweep.Doomed? <==> Outdated(moves, states, a, n, b)
    ensures states[n + 1].sweep.Doomed? ==> states[n + 1].sweep.path == p
  {
    CutoffIsLeast(u, moves, states, a, n);
    TracedStep(u, moves, states, n);
    TimesAreWrites(u, moves, states, n, p);
    var c: nat :| c < n && LastWrite(moves, c, p, n) && states[n].files[p] == states[c].pool.clock;
    LastWriteUnique(moves, b, c, p, n);
    BelowCutoffIff(moves, states, a, n, b, states[n].sweep.cutoff);
  }

  /** Nothing but a sweep removes an entry, and only the one it has doomed. */
  lemma {:induction false} OnlyDoomedGo(u: Setup, moves: seq<Move>, states: seq<World>, n: nat, p: Path)
    requires Traced(u, moves, states) && n < |moves| && p in states[n].files
    ensures p !in states[n + 1].files <==> moves[n] == Remove && states[n].sweep.Doomed? && states[n].sweep.path == p
  {
    TracedStep(u, moves, states, n);
  }

  /** What a sweep removes is gone until a build writes it again. */
  lemma {:induction false} GoneUntilWritten(u: Setup, moves: seq<Move>, states: seq<World>, m: nat, n: nat, p: Path)
    requires Traced(u, moves, states) && m < n <= |moves| && moves[m] == Remove && states[m].sweep.Doomed?
    requires p == states[m].sweep.path && forall i: nat :: m < i < n ==> !Writes(moves, i, p)
    ensures p !in states[n].files
  {
    TracedStep(u, moves, states, n - 1);
    if m + 1 < n {
      GoneUntilWritten(u, moves, states, m, n - 1, p);
      assert !Writes(moves, n - 1, p);
    }
  }

  // ---------------------------------------------------------------- what a sweep leaves

  /** Entries the walk has passed are of the baseline or no older than the cutoff. */
  ghost predicate Passed(u: Setup, files: map<Path, nat>, sweep: Sweep) {
    match sweep
    case Visiting(cutoff, left) => forall p :: p in files ==> p in u.baseline || p in left || files[p] >= cutoff
    case Doomed(cutoff, left, path) =>
      forall p :: p in files ==> p in u.baseline || p in left || p == path || files[p] >= cutoff
    case _ => true
  }

  lemma {:induction false} PassedKept(u: Setup, s: World, m: Move)
    requires SweepOk(u, s) && Passed(u, s.files, s.sweep) && CanTake(u, s, m)
    ensures Passed(u, Take(u, s, m).files, Take(u, s, m).sweep)
  {
  }

  lemma {:induction false} PassedAt(u: Setup, moves: seq<Move>, states: seq<World>, n: nat)
    requires Traced(u, moves, states) && n <= |moves|
    ensures Passed(u, states[n].files, states[n].sweep)
  {
    if n > 0 {
      PassedAt(u, moves, states, n - 1);
      TracedInv(u, moves, states, n - 1);
      TracedStep(u, moves, states, n - 1);
      PassedKept(u, states[n - 1], moves[n - 1]);
    }
  }

  /** When a sweep ends, every entry outside the baseline was last written no earlier than the sweep started,
      or than the stamp of some job it saw in flight: with nothing in flight only the baseline and later
      writes are left. */
  lemma {:induction false} SweepLeaves(u: Setup, moves: seq<Move>, states: seq<World>, a: nat, n: nat, p: Path)
    requires Traced(u, moves, states) && InSweep(moves, a, n) && n < |moves| && moves[n].SweepEnd?
    requires p in states[n + 1].files && p !in u.baseline
    ensures exists b: nat :: b < n && LastWrite(moves, b, p, n) && !Outdated(moves, states, a, n, b)
  {
    TracedStep(u, moves, states, n);
    PassedAt(u, moves, states, n);
    CutoffIsLeast(u, moves, states, a, n);
    TimesAreWrites(u, moves, states, n, p);
    var b: nat :| b < n && LastWrite(moves, b, p, n) && states[n].files[p] == states[b].pool.clock;
    BelowCutoffIff(moves, states, a, n, b, states[n].sweep.cutoff);
  }
}
