/** A sweep of the pinned janitor that nothing comes between: it can always go on to its end, and what it does to the
    cache (pkg/tc39/cachejanitor.go, watchCachePinned and pinToBaseline). */
module SweepAlone {
  import opened Types
  import opened RunProtocol
  import opened BuildCachePin

  predicate OfSweep(m: Move) {
    !m.Base? && !m.BuildWrite?
  }

  /** The janitor alone gets from `s` to `t`. */
  ghost predicate Alone(u: Setup, s: World, moves: seq<Move>, t: World) {
    Goes(u, s, moves, t) && forall m :: m in moves ==> OfSweep(m)
  }

  lemma {:induction false} AloneStep(u: Setup, s: World, m: Move, rest: seq<Move>, t: World)
    requires OfSweep(m) && CanTake(u, s, m) && Alone(u, Take(u, s, m), rest, t)
    ensures Alone(u, s, [m] + rest, t)
  {
    assert ([m] + rest)[1..] == rest;
  }

  function Remaining(u: Setup, files: map<Path, nat>, left: set<Path>, cutoff: nat): map<Path, nat> {
    map p | p in files && !(p in left && p !in u.baseline && files[p] < cutoff) :: files[p]
  }

  /** A walk ends once it has removed what is left, outside the baseline and older than the cutoff. */
  lemma {:induction false} Walk(u: Setup, s: World) returns (moves: seq<Move>, t: World)
    requires s.sweep.Visiting?
    ensures Alone(u, s, moves, t)
    ensures t == s.(sweep := Idle, files := Remaining(u, s.files, s.sweep.left, s.sweep.cutoff))
    decreases s.sweep.left
  {
    if p :| p in s.sweep.left && p in s.files {
      var v := Take(u, s, Check(p));
      if v.sweep.Visiting? {
        moves, t := Walk(u, v);
      } else {
        moves, t := Walk(u, Take(u, v, Remove));
        AloneStep(u, v, Remove, moves, t);
        moves := [Remove] + moves;
      }
      AloneStep(u, s, Check(p), moves, t);
      moves := [Check(p)] + moves;
    } else {
      t := Take(u, s, SweepEnd);
      AloneStep(u, s, SweepEnd, [], t);
      moves := [SweepEnd];
    }
  }

  function ReadLast(u: Setup, s: World): nat
    requires s.sweep.Scanning?
  {
    if u.cutoffFirst then s.sweep.now else s.pool.clock
  }

  /** Whether an entry written at `at` is older than what the scan has seen and will see. */
  ghost predicate Predates(u: Setup, s: World, at: nat)
    requires s.sweep.Scanning?
  {
    at < ReadLast(u, s) && (s.sweep.oldest.Some? ==> at < s.sweep.oldest.value) &&
    forall j :: j in s.sweep.pending && j in s.pool.flight.inflight ==> at < s.pool.flight.inflight[j]
  }

  lemma {:induction false} LookKeeps(u: Setup, s: World, j: JobId, at: nat)
    requires s.sweep.Scanning? && j in s.sweep.pending
    ensures Predates(u, Take(u, s, Look(j)), at) <==> Predates(u, s, at)
  {
  }

  /** A scan ends with the walk from a cutoff of which exactly the entries older than all it sees fall short. */
  lemma {:induction false} Scan(u: Setup, s: World) returns (moves: seq<Move>, t: World)
    requires s.sweep.Scanning?
    ensures Alone(u, s, moves, t) && t.sweep.Visiting? && t == s.(sweep := Visiting(t.sweep.cutoff, s.files.Keys))
    ensures forall at: nat :: at < t.sweep.cutoff <==> Predates(u, s, at)
    decreases s.sweep.pending
  {
    if j :| j in s.sweep.pending {
      var v := Take(u, s, Look(j));
      moves, t := Scan(u, v);
      forall at: nat ensures Predates(u, v, at) <==> Predates(u, s, at) { LookKeeps(u, s, j, at); }
      AloneStep(u, s, Look(j), moves, t);
      moves := [Look(j)] + moves;
    } else {
      t := Take(u, s, FixCutoff);
      AloneStep(u, s, FixCutoff, [], t);
      moves := [FixCutoff];
    }
  }

  lemma {:induction false} AloneOn(u: Setup, s: World, first: seq<Move>, v: World, more: seq<Move>, t: World)
    requires Alone(u, s, first, v) && Alone(u, v, more, t)
    ensures Alone(u, s, first + more, t)
    decreases |first|
  {
    if first == [] {
      assert first + more == more;
    } else {
      AloneOn(u, Take(u, s, first[0]), first[1..], v, more, t);
      AloneStep(u, s, first[0], first[1..] + more, t);
      assert [first[0]] + (first[1..] + more) == first + more;
    }
  }

  lemma {:induction false} FromScan(u: Setup, s: World) returns (moves: seq<Move>, t: World)
    requires s.sweep.Scanning?
    ensures Alone(u, s, moves, t) && t.sweep.Idle? && t == s.(sweep := Idle, files := t.files)
    ensures forall p :: p in t.files <==> p in s.files && (p in u.baseline || !Predates(u, s, s.files[p]))
    ensures forall p :: p in t.files ==> t.files[p] == s.files[p]
  {
    var looks, v := Scan(u, s);
    var walk;
    walk, t := Walk(u, v);
    AloneOn(u, s, looks, v, walk, t);
    moves := looks + walk;
  }

  /** Whatever the pool did in between, a sweep can go on to its end by itself. */
  lemma {:induction false} SweepsCanEnd(u: Setup, s: World) returns (moves: seq<Move>, t: World)
    ensures Alone(u, s, moves, t) && t.sweep.Idle? && t.pool == s.pool
  {
    match s.sweep
    case Idle => moves, t := [], s;
    case Scanning(_, _, _) => moves, t := FromScan(u, s);
    case Visiting(_, _) => moves, t := Walk(u, s);
    case Doomed(_, _, _) =>
      moves, t := Walk(u, Take(u, s, Remove));
      AloneStep(u, s, Remove, moves, t);
      moves := [Remove] + moves;
  }

  /** An entry written at `at` is older than now and than every job in flight. */
  ghost predicate Residue(s: Pool, at: nat) {
    at < s.clock && forall j :: j in s.flight.inflight ==> at < s.flight.inflight[j]
  }

  /** A sweep nothing comes between takes exactly the entries outside the baseline that were written before now and
      before the stamp of every job in flight: with nothing in flight, all of them but this instant's. */
  lemma {:induction false} SweepAtOnce(u: Setup, s: World) returns (moves: seq<Move>, t: World)
    requires s.sweep.Idle?
    ensures Alone(u, s, [SweepStart] + moves, t) && t == s.(files := t.files)
    ensures forall p :: p in t.files <==> p in s.files && (p in u.baseline || !Residue(s.pool, s.files[p]))
    ensures forall p :: p in t.files ==> t.files[p] == s.files[p]
  {
    var v := Take(u, s, SweepStart);
    moves, t := FromScan(u, v);
    AloneStep(u, s, SweepStart, moves, t);
    forall at: nat ensures Predates(u, v, at) <==> Residue(s.pool, at) { }
  }
}
