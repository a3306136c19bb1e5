/** Whole runs of the pool as their labels tell them: where a recorded result comes from, which answer counts,
    which subprocess is replaced when, and that none outlives the run (pkg/tc39/orchestrator.go). */
module RunHistory {
  import opened Types
  import opened RunProtocol

  ghost predicate Leads(c: Config, s: Pool, l: Label, t: Pool) {
    Enabled(c, s, l) && t == Apply(c, s, l)
  }

  /** A run from the start, and the states it goes through. */
  ghost predicate Traced(c: Config, labels: seq<Label>, states: seq<Pool>) {
    ValidConfig(c) && |states| == |labels| + 1 && states[0] == Init(c) &&
    forall n: nat {:trigger labels[n]} :: n < |labels| ==> Leads(c, states[n], labels[n], states[n + 1])
  }

  lemma {:induction false} StatesOf(c: Config, s: Pool, labels: seq<Label>, t: Pool) returns (states: seq<Pool>)
    requires Runs(c, s, labels, t)
    ensures |states| == |labels| + 1 && states[0] == s && states[|labels|] == t
    ensures forall n: nat {:trigger labels[n]} :: n < |labels| ==> Leads(c, states[n], labels[n], states[n + 1])
    decreases |labels|
  {
    if labels == [] {
      states := [s];
    } else {
      var rest := StatesOf(c, Apply(c, s, labels[0]), labels[1..], t);
      states := [s] + rest;
      forall n: nat | n < |labels| ensures Leads(c, states[n], labels[n], states[n + 1]) {
        if n > 0 { assert labels[n] == labels[1..][n - 1]; }
      }
    }
  }

  /** Every run has a trace. */
  lemma {:induction false} TraceOf(c: Config, labels: seq<Label>, t: Pool) returns (states: seq<Pool>)
    requires ValidConfig(c) && Runs(c, Init(c), labels, t)
    ensures Traced(c, labels, states) && states[|labels|] == t
  {
    states := StatesOf(c, Init(c), labels, t);
  }

  lemma {:induction false} TracedStep(c: Config, labels: seq<Label>, states: seq<Pool>, n: nat)
    requires Traced(c, labels, states) && n < |labels|
    ensures Leads(c, states[n], labels[n], states[n + 1])
  {
  }

  lemma {:induction false} TracedInv(c: Config, labels: seq<Label>, states: seq<Pool>, n: nat)
    requires Traced(c, labels, states) && n <= |labels|
    ensures Inv(c, states[n])
  {
    if n == 0 {
      InvInit(c);
    } else {
      TracedInv(c, labels, states, n - 1);
      TracedStep(c, labels, states, n - 1);
      InvKept(c, states[n - 1], labels[n - 1]);
    }
  }

  // ---------------------------------------------------------------- where a result comes from

  predicate BusyWith(s: Pool, w: nat, j: JobId) {
    w < |s.workers| && JobOf(s.workers[w].phase) == Some(j)
  }

  /** Before label `n` subprocess `p` replied `r`. */
  ghost predicate Replied(labels: seq<Label>, n: nat, p: ProcId, r: Result) {
    exists m: nat :: m < n && m < |labels| && labels[m] == Sub(p, Reply(r))
  }

  predicate IsFailure(a: Action) {
    a.SpawnFail? || a.MarshalFail? || a.WriteFail? || a.Broken?
  }

  predicate IsDecision(a: Action) {
    a.Answer? || a.Expire? || IsFailure(a)
  }

  /** Label `n` is where the worker busy with job `j` learns what becomes of it. */
  predicate DecidesOn(labels: seq<Label>, states: seq<Pool>, n: nat, j: JobId) {
    n < |labels| < |states| && labels[n].Work? && IsDecision(labels[n].a) && BusyWith(states[n], labels[n].w, j)
  }

  /** It is an answer if the worker's own subprocess replied it, a timeout if the worker's patience ran out,
      and a crash if the spawn, the marshalling, the write or the subprocess failed. */
  ghost predicate Decides(labels: seq<Label>, states: seq<Pool>, n: nat, r: Result) {
    DecidesOn(labels, states, n, r.id) &&
    match labels[n].a
    case Answer =>
      var k := states[n].workers[labels[n].w];
      k.proc.Some? && Replied(labels, n, k.proc.value, r)
    case Expire => r == Result(r.id, "timeout", "", "")
    case _ => r == Result(r.id, "crash", "", "")
  }

  ghost predicate Decided(labels: seq<Label>, states: seq<Pool>, n: nat, r: Result) {
    exists i: nat :: i < n && Decides(labels, states, i, r)
  }

  /** The result that worker phase `ph` carries. */
  function Carried(ph: Phase): Option<Result> {
    match ph
    case Answered(_, r, _) => Some(r)
    case Deleted(_, r, _) => Some(r)
    case Offering(r) => Some(r)
    case _ => None
  }

  ghost predicate OutboxOrigin(labels: seq<Label>, pipes: Pipes, n: nat) {
    forall p, k: nat :: p in pipes.procs && k < |pipes.procs[p].outbox| ==>
      Replied(labels, n, p, pipes.procs[p].outbox[k])
  }

  ghost predicate CarriedOrigin(labels: seq<Label>, states: seq<Pool>, workers: seq<Worker>, n: nat) {
    forall w: nat :: w < |workers| && Carried(workers[w].phase).Some? ==>
      Decided(labels, states, n, Carried(workers[w].phase).value)
  }

  ghost predicate LogOrigin(labels: seq<Label>, states: seq<Pool>, log: seq<Result>, n: nat) {
    forall k: nat :: k < |log| ==> Decided(labels, states, n, log[k])
  }

  ghost predicate OriginOk(labels: seq<Label>, states: seq<Pool>, n: nat)
    requires n < |states|
  {
    OutboxOrigin(labels, states[n].pipes, n) && CarriedOrigin(labels, states, states[n].workers, n) &&
    LogOrigin(labels, states, states[n].record.log, n)
  }

  lemma {:induction false} DecidedLater(labels: seq<Label>, states: seq<Pool>, n: nat, r: Result)
    requires Decided(labels, states, n, r)
    ensures Decided(labels, states, n + 1, r)
  {
  }

  lemma {:induction false} RepliedLater(labels: seq<Label>, n: nat, p: ProcId, r: Result)
    requires Replied(labels, n, p, r)
    ensures Replied(labels, n + 1, p, r)
  {
  }

  /** What an action puts into a worker's hands is what it carried or what it decides. */
  lemma {:induction false} MovedCarries(c: Config, clock: nat, chans: Channels, pipes: Pipes, k: Worker, a: Action)
    requires ActionEnabled(c, chans, pipes, k, a) && Paired(c, pipes, k)
    ensures var was, now := Carried(k.phase), Carried(Moved(c, clock, chans, pipes, k, a).phase);
            if a.Answer? then
              k.proc.Some? && HasProc(pipes, k) && |ProcOf(pipes, k).outbox| > 0 &&
              now == Some(ProcOf(pipes, k).outbox[0]) && JobOf(k.phase) == Some(now.value.id)
            else if a.Expire? then JobOf(k.phase).Some? && now == Some(Result(JobOf(k.phase).value, "timeout", "", ""))
            else if IsFailure(a) then JobOf(k.phase).Some? && now == Some(Result(JobOf(k.phase).value, "crash", "", ""))
            else now == was || (a.Deliver? && now.None?)
  {
  }

  /** What an action leaves in an outbox was there. */
  lemma {:induction false} OutboxesShrink(c: Config, chans: Channels, pipes: Pipes, k: Worker, a: Action, p: ProcId,
                                          m: nat)
    requires ActionEnabled(c, chans, pipes, k, a)
    requires p in Piped(c, chans, pipes, k, a).procs && m < |Piped(c, chans, pipes, k, a).procs[p].outbox|
    ensures p in pipes.procs && Piped(c, chans, pipes, k, a).procs[p].outbox[m] in pipes.procs[p].outbox
  {
    if a.Answer? && k.proc == Some(p) {
      assert Piped(c, chans, pipes, k, a).procs[p].outbox[m] == pipes.procs[p].outbox[m + 1];
    }
  }

  lemma {:induction false} OutboxStep(c: Config, labels: seq<Label>, states: seq<Pool>, n: nat)
    requires Traced(c, labels, states) && n < |labels| && OutboxOrigin(labels, states[n].pipes, n)
    ensures OutboxOrigin(labels, states[n + 1].pipes, n + 1)
  {
    TracedStep(c, labels, states, n);
    var s, t, l := states[n], states[n + 1], labels[n];
    forall p, k: nat | p in t.pipes.procs && k < |t.pipes.procs[p].outbox|
      ensures Replied(labels, n + 1, p, t.pipes.procs[p].outbox[k])
    {
      var r := t.pipes.procs[p].outbox[k];
      if l == Sub(p, Reply(r)) {
      } else {
        if l.Work? { OutboxesShrink(c, s.chans, s.pipes, s.workers[l.w], l.a, p, k); }
        assert p in s.pipes.procs && r in s.pipes.procs[p].outbox;
        RepliedLater(labels, n, p, r);
      }
    }
  }

  lemma {:induction false} WorkerStep(c: Config, labels: seq<Label>, states: seq<Pool>, n: nat)
    requires Traced(c, labels, states) && n < |labels| && labels[n].Work?
    requires OutboxOrigin(labels, states[n].pipes, n) && CarriedOrigin(labels, states, states[n].workers, n)
    ensures labels[n].w < |states[n + 1].workers|
    ensures var now := Carried(states[n + 1].workers[labels[n].w].phase);
            now.Some? ==> Decided(labels, states, n + 1, now.value)
  {
    TracedStep(c, labels, states, n);
    TracedInv(c, labels, states, n);
    var s, w, a := states[n], labels[n].w, labels[n].a;
    MovedCarries(c, s.clock, s.chans, s.pipes, s.workers[w], a);
    var now := Carried(states[n + 1].workers[w].phase);
    if IsDecision(a) {
      assert Decides(labels, states, n, now.value);
    } else if now.Some? {
      DecidedLater(labels, states, n, now.value);
    }
  }

  lemma {:induction false} CarriedStep(c: Config, labels: seq<Label>, states: seq<Pool>, n: nat)
    requires Traced(c, labels, states) && n < |labels| && OriginOk(labels, states, n)
    ensures CarriedOrigin(labels, states, states[n + 1].workers, n + 1)
  {
    TracedStep(c, labels, states, n);
    var s, t, l := states[n], states[n + 1], labels[n];
    if l.Work? { WorkerStep(c, labels, states, n); }
    forall w: nat | w < |t.workers| && Carried(t.workers[w].phase).Some?
      ensures Decided(labels, states, n + 1, Carried(t.workers[w].phase).value)
    {
      if !(l.Work? && l.w == w) {
        assert t.workers[w] == s.workers[w];
        DecidedLater(labels, states, n, Carried(s.workers[w].phase).value);
      }
    }
  }

  lemma {:induction false} LogStep(c: Config, labels: seq<Label>, states: seq<Pool>, n: nat)
    requires Traced(c, labels, states) && n < |labels| && OriginOk(labels, states, n)
    ensures LogOrigin(labels, states, states[n + 1].record.log, n + 1)
  {
    TracedStep(c, labels, states, n);
    var s, t, l := states[n], states[n + 1], labels[n];
    forall k: nat | k < |t.record.log| ensures Decided(labels, states, n + 1, t.record.log[k]) {
      if k < |s.record.log| {
        assert t.record.log[k] == s.record.log[k];
      } else {
        assert Carried(s.workers[l.w].phase) == Some(t.record.log[k]);
      }
      DecidedLater(labels, states, n, t.record.log[k]);
    }
  }

  lemma {:induction false} OriginAt(c: Config, labels: seq<Label>, states: seq<Pool>, n: nat)
    requires Traced(c, labels, states) && n <= |labels|
    ensures OriginOk(labels, states, n)
  {
    if n > 0 {
      OriginAt(c, labels, states, n - 1);
      OutboxStep(c, labels, states, n - 1);
      CarriedStep(c, labels, states, n - 1);
      LogStep(c, labels, states, n - 1);
    }
  }

  // ---------------------------------------------------------------- one decision a job

  /** The job's result is on its way to the collector, or recorded. */
  ghost predicate Settled(s: Pool, j: JobId) {
    j in s.record.results || exists w: nat :: BusyWith(s, w, j) && Carried(s.workers[w].phase).Some?
  }

  lemma {:induction false} SettledStays(c: Config, s: Pool, l: Label, j: JobId)
    requires ValidConfig(c) && Inv(c, s) && Enabled(c, s, l) && Settled(s, j)
    ensures Settled(Apply(c, s, l), j)
  {
    var t := Apply(c, s, l);
    if j !in s.record.results {
      var w: nat :| BusyWith(s, w, j) && Carried(s.workers[w].phase).Some?;
      if l.Work? && l.w == w {
        MovedJob(c, s.clock, s.chans, s.pipes, s.workers[w], l.a);
        MovedCarries(c, s.clock, s.chans, s.pipes, s.workers[w], l.a);
        if !l.a.Deliver? { assert BusyWith(t, w, j); }
      } else {
        assert t.workers[w] == s.workers[w];
        assert BusyWith(t, w, j);
      }
    }
  }

  lemma {:induction false} DecisionSettles(c: Config, s: Pool, w: nat, a: Action, j: JobId)
    requires ValidConfig(c) && Inv(c, s) && Enabled(c, s, Work(w, a)) && IsDecision(a) && BusyWith(s, w, j)
    ensures !Settled(s, j) && Settled(Apply(c, s, Work(w, a)), j)
  {
    var t := Apply(c, s, Work(w, a));
    MovedJob(c, s.clock, s.chans, s.pipes, s.workers[w], a);
    MovedCarries(c, s.clock, s.chans, s.pipes, s.workers[w], a);
    assert BusyWith(t, w, j);
  }

  lemma {:induction false} SettledStep(c: Config, labels: seq<Label>, states: seq<Pool>, n: nat, j: JobId)
    requires Traced(c, labels, states) && n < |labels|
    requires Settled(states[n], j) || DecidesOn(labels, states, n, j)
    ensures Settled(states[n + 1], j)
  {
    TracedInv(c, labels, states, n);
    TracedStep(c, labels, states, n);
    if Settled(states[n], j) {
      SettledStays(c, states[n], labels[n], j);
    } else {
      DecisionSettles(c, states[n], labels[n].w, labels[n].a, j);
    }
  }

  lemma {:induction false} DecidedIsSettled(c: Config, labels: seq<Label>, states: seq<Pool>, i: nat, n: nat, j: JobId)
    requires Traced(c, labels, states) && i < n <= |labels| && DecidesOn(labels, states, i, j)
    ensures Settled(states[n], j)
  {
    if i + 1 < n { DecidedIsSettled(c, labels, states, i, n - 1, j); }
    SettledStep(c, labels, states, n - 1, j);
  }

  /** In every run a job's result is decided once. */
  lemma {:induction false} DecidedOnce(c: Config, labels: seq<Label>, states: seq<Pool>, i: nat, n: nat, j: JobId)
    requires Traced(c, labels, states) && DecidesOn(labels, states, i, j) && DecidesOn(labels, states, n, j)
    ensures i == n
  {
    if i < n {
      DecidedIsSettled(c, labels, states, i, n, j);
      TracedInv(c, labels, states, n);
      TracedStep(c, labels, states, n);
      DecisionSettles(c, states[n], labels[n].w, labels[n].a, j);
    } else if n < i {
      DecidedOnce(c, labels, states, n, i, j);
    }
  }

  /** In every run each recorded result is decided by one label of the run: it is what the worker's own
      subprocess replied for that job, or a timeout, or a crash, and a timeout or a crash that no subprocess
      replied is recorded only over a job that overran or failed. */
  lemma {:induction false} RecordsAreDecided(c: Config, labels: seq<Label>, states: seq<Pool>, r: Result)
    requires Traced(c, labels, states) && r in states[|labels|].record.log
    ensures exists n: nat ::
              Decides(labels, states, n, r) && forall i: nat :: DecidesOn(labels, states, i, r.id) ==> i == n
  {
    OriginAt(c, labels, states, |labels|);
    var k: nat :| k < |states[|labels|].record.log| && states[|labels|].record.log[k] == r;
    var n: nat :| n < |labels| && Decides(labels, states, n, r);
    forall i: nat | DecidesOn(labels, states, i, r.id) ensures i == n { DecidedOnce(c, labels, states, i, n, r.id); }
  }

  // ---------------------------------------------------------------- living subprocesses

  ghost predicate Owned(s: Pool, p: ProcId) {
    exists w: nat :: w < |s.workers| && s.workers[w].proc == Some(p)
  }

  /** Every living subprocess is some worker's, one that failed its worker is dead, and a worker that left
      its loop has none. */
  ghost predicate OwnersOk(s: Pool) {
    (forall p :: p in s.pipes.procs && s.pipes.procs[p].alive ==> Owned(s, p)) &&
    forall w: nat :: w < |s.workers| ==> NoneLeft(s.pipes, s.workers[w])
  }

  predicate NoneLeft(pipes: Pipes, k: Worker) {
    ((k.phase.Answered? || k.phase.Deleted?) && !k.phase.ok && HasProc(pipes, k) ==> !ProcOf(pipes, k).alive) &&
    (k.phase.Exited? ==> k.proc.None?)
  }

  lemma {:induction false} MovedOwns(c: Config, clock: nat, chans: Channels, pipes: Pipes, k: Worker, a: Action,
                                     p: ProcId)
    requires ActionEnabled(c, chans, pipes, k, a) && Paired(c, pipes, k) && NoneLeft(pipes, k)
    ensures var t, k' := Piped(c, chans, pipes, k, a), Moved(c, clock, chans, pipes, k, a);
            NoneLeft(t, k') &&
            (p in t.procs && t.procs[p].alive ==>
               k'.proc == Some(p) || (k.proc != Some(p) && p in pipes.procs && pipes.procs[p].alive))
  {
  }

  lemma {:induction false} OwnersWork(c: Config, s: Pool, w: nat, a: Action)
    requires PairingOk(c, s.workers, s.pipes) && OwnersOk(s) && Enabled(c, s, Work(w, a))
    ensures OwnersOk(Apply(c, s, Work(w, a)))
  {
    var t, k := Apply(c, s, Work(w, a)), s.workers[w];
    PipedFrame(c, s.clock, s.chans, s.pipes, k, a);
    forall p | p in t.pipes.procs && t.pipes.procs[p].alive ensures Owned(t, p) {
      MovedOwns(c, s.clock, s.chans, s.pipes, k, a, p);
      if t.workers[w].proc != Some(p) {
        var v: nat :| v < |s.workers| && s.workers[v].proc == Some(p);
        assert t.workers[v].proc == Some(p);
      } else {
        assert t.workers[w].proc == Some(p);
      }
    }
    forall v: nat | v < |t.workers| ensures NoneLeft(t.pipes, t.workers[v]) {
      if v == w {
        MovedOwns(c, s.clock, s.chans, s.pipes, k, a, 0);
      } else {
        assert Paired(c, s.pipes, s.workers[v]) && NoneLeft(s.pipes, s.workers[v]);
      }
    }
  }

  lemma {:induction false} OwnersKept(c: Config, s: Pool, l: Label)
    requires PairingOk(c, s.workers, s.pipes) && OwnersOk(s) && Enabled(c, s, l)
    ensures OwnersOk(Apply(c, s, l))
  {
    var t := Apply(c, s, l);
    match l {
      case Work(w, a) => OwnersWork(c, s, w, a);
      case Feeder(_) =>
        forall p | p in t.pipes.procs && t.pipes.procs[p].alive ensures Owned(t, p) {
          var v: nat :| v < |s.workers| && s.workers[v].proc == Some(p);
          assert t.workers[v].proc == Some(p);
        }
      case Sub(q, e) =>
        forall p | p in t.pipes.procs && t.pipes.procs[p].alive ensures Owned(t, p) {
          var v: nat :| v < |s.workers| && s.workers[v].proc == Some(p);
          assert t.workers[v].proc == Some(p);
        }
        forall w: nat | w < |t.workers| ensures NoneLeft(t.pipes, t.workers[w]) {
          assert NoneLeft(s.pipes, s.workers[w]);
        }
      case _ =>
        forall p | p in t.pipes.procs && t.pipes.procs[p].alive ensures Owned(t, p) {
          var v: nat :| v < |s.workers| && s.workers[v].proc == Some(p);
          assert t.workers[v].proc == Some(p);
        }
    }
  }

  lemma {:induction false} OwnersAt(c: Config, labels: seq<Label>, states: seq<Pool>, n: nat)
    requires Traced(c, labels, states) && n <= |labels|
    ensures OwnersOk(states[n])
  {
    if n > 0 {
      OwnersAt(c, labels, states, n - 1);
      TracedInv(c, labels, states, n - 1);
      TracedStep(c, labels, states, n - 1);
      OwnersKept(c, states[n - 1], labels[n - 1]);
    }
  }

  /** When the workers are gone no subprocess lives: at the collector's exit all have been killed. */
  lemma {:induction false} NoneOutlives(c: Config, labels: seq<Label>, states: seq<Pool>)
    requires Traced(c, labels, states) && !states[|labels|].chans.collecting
    ensures forall p :: p in states[|labels|].pipes.procs ==> !states[|labels|].pipes.procs[p].alive
  {
    var s := states[|labels|];
    OwnersAt(c, labels, states, |labels|);
    TracedInv(c, labels, states, |labels|);
    forall w: nat | w < |s.workers| ensures s.workers[w].proc.None? {
      assert NoneLeft(s.pipes, s.workers[w]);
    }
  }

  // ---------------------------------------------------------------- who kills a subprocess

  ghost predicate DiedBefore(labels: seq<Label>, n: nat, p: ProcId) {
    exists m: nat :: m < n && m < |labels| && labels[m] == Sub(p, Die)
  }

  /** A worker's subprocess is dead only if it died of itself, or its worker's patience has just run out. */
  ghost predicate HeldLives(labels: seq<Label>, n: nat, pipes: Pipes, k: Worker) {
    HasProc(pipes, k) && !ProcOf(pipes, k).alive ==>
      DiedBefore(labels, n, k.proc.value) || ((k.phase.Answered? || k.phase.Deleted?) && !k.phase.ok)
  }

  ghost predicate AllHeldLive(labels: seq<Label>, s: Pool, n: nat) {
    forall w: nat :: w < |s.workers| ==> HeldLives(labels, n, s.pipes, s.workers[w])
  }

  lemma {:induction false} MovedLives(c: Config, clock: nat, chans: Channels, pipes: Pipes, k: Worker, a: Action,
                                      labels: seq<Label>, n: nat)
    requires ActionEnabled(c, chans, pipes, k, a) && Paired(c, pipes, k) && HeldLives(labels, n, pipes, k)
    ensures HeldLives(labels, n + 1, Piped(c, chans, pipes, k, a), Moved(c, clock, chans, pipes, k, a))
  {
  }

  lemma {:induction false} LivesLater(labels: seq<Label>, n: nat, pipes: Pipes, t: Pipes, k: Worker)
    requires HeldLives(labels, n, pipes, k) && (HasProc(t, k) ==> HasProc(pipes, k))
    requires HasProc(t, k) ==>
               ProcOf(t, k).alive == ProcOf(pipes, k).alive ||
               (n < |labels| && labels[n] == Sub(k.proc.value, Die))
    ensures HeldLives(labels, n + 1, t, k)
  {
  }

  lemma {:induction false} WorkLives(c: Config, labels: seq<Label>, states: seq<Pool>, n: nat, w: nat)
    requires Traced(c, labels, states) && n < |labels| && labels[n].Work? && AllHeldLive(labels, states[n], n)
    requires w < |states[n + 1].workers|
    ensures HeldLives(labels, n + 1, states[n + 1].pipes, states[n + 1].workers[w])
  {
    TracedStep(c, labels, states, n);
    TracedInv(c, labels, states, n);
    var s, l := states[n], labels[n];
    PipedFrame(c, s.clock, s.chans, s.pipes, s.workers[l.w], l.a);
    assert Paired(c, s.pipes, s.workers[w]) && HeldLives(labels, n, s.pipes, s.workers[w]);
    if l.w == w {
      MovedLives(c, s.clock, s.chans, s.pipes, s.workers[w], l.a, labels, n);
    } else {
      LivesLater(labels, n, s.pipes, states[n + 1].pipes, s.workers[w]);
    }
  }

  lemma {:induction false} OtherLives(c: Config, labels: seq<Label>, states: seq<Pool>, n: nat, w: nat)
    requires Traced(c, labels, states) && n < |labels| && !labels[n].Work? && AllHeldLive(labels, states[n], n)
    requires w < |states[n + 1].workers|
    ensures HeldLives(labels, n + 1, states[n + 1].pipes, states[n + 1].workers[w])
  {
    TracedStep(c, labels, states, n);
    var s := states[n];
    assert HeldLives(labels, n, s.pipes, s.workers[w]);
    LivesLater(labels, n, s.pipes, states[n + 1].pipes, s.workers[w]);
  }

  lemma {:induction false} LivesStep(c: Config, labels: seq<Label>, states: seq<Pool>, n: nat)
    requires Traced(c, labels, states) && n < |labels| && AllHeldLive(labels, states[n], n)
    ensures AllHeldLive(labels, states[n + 1], n + 1)
  {
    var t := states[n + 1];
    forall w: nat | w < |t.workers| ensures HeldLives(labels, n + 1, t.pipes, t.workers[w]) {
      if labels[n].Work? {
        WorkLives(c, labels, states, n, w);
      } else {
        OtherLives(c, labels, states, n, w);
      }
    }
  }

  lemma {:induction false} HeldLiveAt(c: Config, labels: seq<Label>, states: seq<Pool>, n: nat)
    requires Traced(c, labels, states) && n <= |labels|
    ensures AllHeldLive(labels, states[n], n)
  {
    if n > 0 {
      HeldLiveAt(c, labels, states, n - 1);
      LivesStep(c, labels, states, n - 1);
    }
  }

  /** A write or a read fails only on a subprocess that died of itself: the pool kills none it goes on using. */
  lemma {:induction false} FailuresAreDeaths(c: Config, labels: seq<Label>, states: seq<Pool>, n: nat)
    requires Traced(c, labels, states) && n < |labels| && labels[n].Work?
    requires labels[n].a.WriteFail? || labels[n].a.Broken?
    ensures labels[n].w < |states[n].workers| && states[n].workers[labels[n].w].proc.Some?
    ensures DiedBefore(labels, n, states[n].workers[labels[n].w].proc.value)
  {
    TracedStep(c, labels, states, n);
    HeldLiveAt(c, labels, states, n);
    assert HeldLives(labels, n, states[n].pipes, states[n].workers[labels[n].w]);
  }

  /** At any time a subprocess can die, the clock can go on, and a run that may be aborted can be. */
  lemma {:induction false} AnyTime(c: Config, s: Pool, p: ProcId)
    ensures p in s.pipes.procs ==>
              Enabled(c, s, Sub(p, Die)) && !Apply(c, s, Sub(p, Die)).pipes.procs[p].alive
    ensures Enabled(c, s, Tick) && Apply(c, s, Tick) == s.(clock := s.clock + 1)
    ensures Enabled(c, s, Abort) <==> c.abortable
    ensures c.abortable ==> Apply(c, s, Abort) == s.(aborted := true)
  {
  }

  lemma {:induction false} DeadStays(c: Config, s: Pool, l: Label, p: ProcId)
    requires Enabled(c, s, l) && p in s.pipes.procs && !s.pipes.procs[p].alive
    ensures p in Apply(c, s, l).pipes.procs && !Apply(c, s, l).pipes.procs[p].alive
  {
  }

  lemma {:induction false} DeadFrom(c: Config, labels: seq<Label>, states: seq<Pool>, m: nat, n: nat, p: ProcId)
    requires Traced(c, labels, states) && m < n <= |labels| && labels[m] == Sub(p, Die)
    ensures p in states[n].pipes.procs && !states[n].pipes.procs[p].alive
  {
    TracedStep(c, labels, states, n - 1);
    if m < n - 1 {
      DeadFrom(c, labels, states, m, n - 1, p);
      DeadStays(c, states[n - 1], labels[n - 1], p);
    }
  }

  /** A subprocess that died neither listens nor reads nor replies for the rest of the run. */
  lemma {:induction false} DeadIsSilent(c: Config, labels: seq<Label>, states: seq<Pool>, m: nat, n: nat, p: ProcId)
    requires Traced(c, labels, states) && m < n < |labels| && labels[m] == Sub(p, Die)
    ensures labels[n].Sub? && labels[n].p == p ==> labels[n].e.Die?
  {
    DeadFrom(c, labels, states, m, n, p);
    TracedStep(c, labels, states, n);
  }

  lemma {:induction false} HasItsProc(c: Config, labels: seq<Label>, states: seq<Pool>, n: nat, w: nat)
    requires Traced(c, labels, states) && n <= |labels| && w < |states[n].workers|
    requires NeedsProc(states[n].workers[w].phase)
    ensures HasProc(states[n].pipes, states[n].workers[w])
  {
    TracedInv(c, labels, states, n);
    assert Paired(c, states[n].pipes, states[n].workers[w]);
  }

  /** At any point of a run a worker that waits can lose patience, reads an answer iff one is there, and finds its
      subprocess broken iff that is dead and every answer is read. */
  lemma {:induction false} WaiterMay(c: Config, labels: seq<Label>, states: seq<Pool>, n: nat, w: nat)
    requires Traced(c, labels, states) && n <= |labels| && w < |states[n].workers|
    requires states[n].workers[w].phase.Waiting?
    ensures HasProc(states[n].pipes, states[n].workers[w]) && Enabled(c, states[n], Work(w, Expire))
    ensures var q := ProcOf(states[n].pipes, states[n].workers[w]);
            (Enabled(c, states[n], Work(w, Answer)) <==> q.outbox != []) &&
            (Enabled(c, states[n], Work(w, Broken)) <==> !q.alive && q.outbox == [])
  {
    HasItsProc(c, labels, states, n, w);
  }

  /** At any point of a run a request comes to nothing iff it cannot be put on a line, its write fails iff the
      subprocess is dead, and it goes through only to a living one. */
  lemma {:induction false} WriterMay(c: Config, labels: seq<Label>, states: seq<Pool>, n: nat, w: nat)
    requires Traced(c, labels, states) && n <= |labels| && w < |states[n].workers|
    requires states[n].workers[w].phase.Stored?
    ensures HasProc(states[n].pipes, states[n].workers[w])
    ensures var q, line := ProcOf(states[n].pipes, states[n].workers[w]), c.line(states[n].workers[w].phase.job);
            (Enabled(c, states[n], Work(w, WriteFail)) <==> !q.alive) &&
            (Enabled(c, states[n], Work(w, MarshalFail)) <==> line.None?) &&
            (Enabled(c, states[n], Work(w, Write)) ==> q.alive && line.Some?)
  {
    HasItsProc(c, labels, states, n, w);
  }

  /** Before label `n` subprocess `p` turned to its pipe, and has read no line since. */
  ghost predicate Listened(labels: seq<Label>, n: nat, p: ProcId) {
    exists m: nat :: m < n && m < |labels| && labels[m] == Sub(p, Listen) &&
                     forall i: nat :: m < i < n && i < |labels| ==> labels[i] != Sub(p, Read)
  }

  lemma {:induction false} ListenedStep(c: Config, s: Pool, l: Label, p: ProcId)
    requires Enabled(c, s, l) && p in Apply(c, s, l).pipes.procs && Apply(c, s, l).pipes.procs[p].listening
    ensures l == Sub(p, Listen) || (l != Sub(p, Read) && p in s.pipes.procs && s.pipes.procs[p].listening)
  {
  }

  lemma {:induction false} ListenedAt(c: Config, labels: seq<Label>, states: seq<Pool>, n: nat, p: ProcId)
    requires Traced(c, labels, states) && n <= |labels|
    requires p in states[n].pipes.procs && states[n].pipes.procs[p].listening
    ensures Listened(labels, n, p)
  {
    if n > 0 {
      TracedStep(c, labels, states, n - 1);
      ListenedStep(c, states[n - 1], labels[n - 1], p);
      if labels[n - 1] != Sub(p, Listen) { ListenedAt(c, labels, states, n - 1, p); }
    }
  }

  /** A line too long for the pipe goes through only to a subprocess that has turned to it and read none since. */
  lemma {:induction false} LongLinesAreAwaited(c: Config, labels: seq<Label>, states: seq<Pool>, n: nat, w: nat)
    requires Traced(c, labels, states) && n < |labels| && labels[n] == Work(w, Write)
    ensures w < |states[n].workers| && BusyWith(states[n], w, states[n].workers[w].phase.job)
    ensures var k := states[n].workers[w];
            k.proc.Some? && c.line(k.phase.job).Some? &&
            (c.line(k.phase.job).value > c.capacity ==> Listened(labels, n, k.proc.value))
  {
    TracedStep(c, labels, states, n);
    var k := states[n].workers[w];
    if c.line(k.phase.job).value > c.capacity { ListenedAt(c, labels, states, n, k.proc.value); }
  }

  // ---------------------------------------------------------------- which answer counts

  predicate IsRecorded(record: Record, r: Result) {
    r.id in record.results && record.results[r.id] == r
  }

  /** The answer is in its worker's pipe, in its worker's hands, or recorded. */
  ghost predicate OnItsWay(s: Pool, p: ProcId, r: Result) {
    IsRecorded(s.record, r) ||
    exists w: nat :: w < |s.workers| && Bears(s.pipes, s.workers[w], p, r)
  }

  predicate Bears(pipes: Pipes, k: Worker, p: ProcId, r: Result) {
    (k.phase == Waiting(r.id) && k.proc == Some(p) && HasProc(pipes, k) && ProcOf(pipes, k).outbox == [r]) ||
    (Carried(k.phase) == Some(r) && JobOf(k.phase) == Some(r.id))
  }

  lemma {:induction false} ReplyGoesOut(c: Config, s: Pool, p: ProcId, r: Result)
    requires PairingOk(c, s.workers, s.pipes) && OwnersOk(s) && Enabled(c, s, Sub(p, Reply(r)))
    ensures OnItsWay(Apply(c, s, Sub(p, Reply(r))), p, r)
  {
    var w: nat :| w < |s.workers| && s.workers[w].proc == Some(p);
    assert Paired(c, s.pipes, s.workers[w]) && NoneLeft(s.pipes, s.workers[w]);
    var t := Apply(c, s, Sub(p, Reply(r)));
    assert Bears(t.pipes, t.workers[w], p, r);
  }

  lemma {:induction false} MovedBears(c: Config, clock: nat, chans: Channels, pipes: Pipes, k: Worker, a: Action,
                                      p: ProcId, r: Result)
    requires ActionEnabled(c, chans, pipes, k, a) && Paired(c, pipes, k) && Bears(pipes, k, p, r) && !a.Expire?
    ensures if a.Deliver? then k.phase == Offering(r)
            else Bears(Piped(c, chans, pipes, k, a), Moved(c, clock, chans, pipes, k, a), p, r)
  {
  }

  lemma {:induction false} OthersBear(c: Config, s: Pool, w: nat, a: Action, v: nat, p: ProcId, r: Result)
    requires PairingOk(c, s.workers, s.pipes) && Enabled(c, s, Work(w, a)) && v < |s.workers| && v != w
    requires Bears(s.pipes, s.workers[v], p, r)
    ensures var t := Apply(c, s, Work(w, a)); Bears(t.pipes, t.workers[v], p, r)
  {
    assert Paired(c, s.pipes, s.workers[w]) && Paired(c, s.pipes, s.workers[v]);
    PipedFrame(c, s.clock, s.chans, s.pipes, s.workers[w], a);
  }

  lemma {:induction false} DeliveryKeeps(c: Config, fed: nat, workers: seq<Worker>, record: Record, w: nat, a: Action,
                                         r: Result)
    requires AccountOk(c, fed, workers, record) && w < |workers| && IsRecorded(record, r)
    ensures IsRecorded(Recorded(record, workers[w], a), r)
  {
    if workers[w].phase.Offering? { OfferedIsFresh(c, fed, workers, record, w); }
  }

  lemma {:induction false} RecordedStays(c: Config, s: Pool, l: Label, r: Result)
    requires AccountOk(c, s.chans.fed, s.workers, s.record) && Enabled(c, s, l) && IsRecorded(s.record, r)
    ensures IsRecorded(Apply(c, s, l).record, r)
  {
    if l.Work? { DeliveryKeeps(c, s.chans.fed, s.workers, s.record, l.w, l.a, r); }
  }

  lemma {:induction false} EventBears(c: Config, s: Pool, q: ProcId, e: Event, w: nat, p: ProcId, r: Result)
    requires PairingOk(c, s.workers, s.pipes) && Enabled(c, s, Sub(q, e)) && w < |s.workers|
    requires Bears(s.pipes, s.workers[w], p, r)
    ensures Bears(EventApply(s.pipes, q, e), s.workers[w], p, r)
  {
    assert Paired(c, s.pipes, s.workers[w]);
  }

  lemma {:induction false} OthersStay(c: Config, s: Pool, l: Label, w: nat, p: ProcId, r: Result)
    requires PairingOk(c, s.workers, s.pipes) && Enabled(c, s, l) && w < |s.workers| && !(l.Work? && l.w == w)
    requires Bears(s.pipes, s.workers[w], p, r)
    ensures Bears(Apply(c, s, l).pipes, Apply(c, s, l).workers[w], p, r)
  {
    match l {
      case Work(v, a) => OthersBear(c, s, v, a, w, p, r);
      case Sub(q, e) => EventBears(c, s, q, e, w, p, r);
      case _ =>
    }
  }

  lemma {:induction false} OwnStays(c: Config, s: Pool, w: nat, a: Action, p: ProcId, r: Result)
    requires PairingOk(c, s.workers, s.pipes) && Enabled(c, s, Work(w, a)) && Bears(s.pipes, s.workers[w], p, r)
    requires !a.Expire?
    ensures OnItsWay(Apply(c, s, Work(w, a)), p, r)
  {
    var t := Apply(c, s, Work(w, a));
    assert Paired(c, s.pipes, s.workers[w]);
    MovedBears(c, s.clock, s.chans, s.pipes, s.workers[w], a, p, r);
    assert a.Deliver? || Bears(t.pipes, t.workers[w], p, r);
  }

  predicate ExpiresOn(s: Pool, l: Label, j: JobId) {
    l.Work? && l.a.Expire? && BusyWith(s, l.w, j)
  }

  /** Nothing but the worker's patience keeps an answer from being recorded. */
  lemma {:induction false} StaysOnItsWay(c: Config, s: Pool, l: Label, p: ProcId, r: Result)
    requires ValidConfig(c) && Inv(c, s) && Enabled(c, s, l) && OnItsWay(s, p, r) && !ExpiresOn(s, l, r.id)
    ensures OnItsWay(Apply(c, s, l), p, r)
  {
    if IsRecorded(s.record, r) {
      RecordedStays(c, s, l, r);
    } else {
      var w: nat :| w < |s.workers| && Bears(s.pipes, s.workers[w], p, r);
      if l.Work? && l.w == w {
        assert BusyWith(s, w, r.id);
        OwnStays(c, s, w, l.a, p, r);
      } else {
        OthersStay(c, s, l, w, p, r);
      }
    }
  }

  lemma {:induction false} AnswerStep(c: Config, labels: seq<Label>, states: seq<Pool>, n: nat, p: ProcId, r: Result)
    requires Traced(c, labels, states) && n < |labels| && !ExpiresOn(states[n], labels[n], r.id)
    requires labels[n] == Sub(p, Reply(r)) || OnItsWay(states[n], p, r)
    ensures OnItsWay(states[n + 1], p, r)
  {
    TracedInv(c, labels, states, n);
    TracedStep(c, labels, states, n);
    if OnItsWay(states[n], p, r) {
      StaysOnItsWay(c, states[n], labels[n], p, r);
    } else {
      OwnersAt(c, labels, states, n);
      ReplyGoesOut(c, states[n], p, r);
    }
  }

  lemma {:induction false} AnswerAt(c: Config, labels: seq<Label>, states: seq<Pool>, m: nat, n: nat, p: ProcId,
                                    r: Result)
    requires Traced(c, labels, states) && m < n <= |labels| && labels[m] == Sub(p, Reply(r))
    requires forall i: nat :: DecidesOn(labels, states, i, r.id) ==> !labels[i].a.Expire?
    ensures OnItsWay(states[n], p, r)
  {
    if m + 1 < n { AnswerAt(c, labels, states, m, n - 1, p, r); }
    assert ExpiresOn(states[n - 1], labels[n - 1], r.id) ==> DecidesOn(labels, states, n - 1, r.id);
    AnswerStep(c, labels, states, n - 1, p, r);
  }

  /** In a run to the collector's exit every answer of a subprocess is recorded, unless its worker's patience
      had run out over that job. */
  lemma {:induction false} AnswersAreRecorded(c: Config, labels: seq<Label>, states: seq<Pool>, p: ProcId, r: Result)
    requires Traced(c, labels, states) && !states[|labels|].chans.collecting && Sub(p, Reply(r)) in labels
    ensures IsRecorded(states[|labels|].record, r) ||
            exists i: nat :: DecidesOn(labels, states, i, r.id) && labels[i].a.Expire?
  {
    var s := states[|labels|];
    var m: nat :| m < |labels| && labels[m] == Sub(p, Reply(r));
    if forall i: nat :: DecidesOn(labels, states, i, r.id) ==> !labels[i].a.Expire? {
      AnswerAt(c, labels, states, m, |labels|, p, r);
      TracedInv(c, labels, states, |labels|);
    }
  }

  /** No spawn, marshalling, write, subprocess or patience of the run failed, and nobody aborted it. */
  predicate Undisturbed(labels: seq<Label>) {
    forall n :: 0 <= n < |labels| ==>
      !labels[n].Abort? && (labels[n].Work? ==> !labels[n].a.Expire? && !IsFailure(labels[n].a))
  }

  lemma {:induction false} AbortedBy(c: Config, labels: seq<Label>, states: seq<Pool>, n: nat)
    requires Traced(c, labels, states) && n <= |labels| && states[n].aborted
    ensures Abort in labels
  {
    if n > 0 {
      TracedStep(c, labels, states, n - 1);
      if states[n - 1].aborted { AbortedBy(c, labels, states, n - 1); }
    }
  }

  /** An undisturbed run to the collector's exit records for every job what a subprocess replied for it, and
      that is all any subprocess replied for it. */
  lemma {:induction false} UndisturbedRecords(c: Config, labels: seq<Label>, states: seq<Pool>, j: JobId)
    requires Traced(c, labels, states) && !states[|labels|].chans.collecting && Undisturbed(labels) && j in c.todo
    ensures j in states[|labels|].record.results && states[|labels|].record.results[j].id == j
    ensures exists p :: Sub(p, Reply(states[|labels|].record.results[j])) in labels
    ensures forall p, r: Result :: r.id == j && Sub(p, Reply(r)) in labels ==> r == states[|labels|].record.results[j]
  {
    var s := states[|labels|];
    if s.aborted { AbortedBy(c, labels, states, |labels|); }
    TraceIsRun(c, labels, states, 0);
    RunComplete(c, s);
    InReplay(s.record.log);
    var r := s.record.results[j];
    RecordsAreDecided(c, labels, states, r);
    var n: nat :| Decides(labels, states, n, r);
    assert labels[n].a.Answer?;
    var k := states[n].workers[labels[n].w];
    assert Replied(labels, n, k.proc.value, r);
    var m: nat :| m < n && labels[m] == Sub(k.proc.value, Reply(r));
    forall p, q: Result | q.id == j && Sub(p, Reply(q)) in labels ensures q == r {
      AnswersAreRecorded(c, labels, states, p, q);
    }
  }

  lemma {:induction false} TraceIsRun(c: Config, labels: seq<Label>, states: seq<Pool>, n: nat)
    requires Traced(c, labels, states) && n <= |labels|
    ensures Runs(c, states[n], labels[n..], states[|labels|])
    decreases |labels| - n
  {
    if n < |labels| {
      TracedStep(c, labels, states, n);
      TraceIsRun(c, labels, states, n + 1);
      assert labels[n..][0] == labels[n] && labels[n..][1..] == labels[n + 1..];
    }
  }

  // ---------------------------------------------------------------- when a subprocess is replaced

  predicate SpawnsAt(labels: seq<Label>, w: nat, i: nat) {
    i < |labels| && labels[i].Work? && labels[i].w == w && labels[i].a.Spawn?
  }

  /** Worker `w` lost its subprocess to a failed send between labels `i` and `n`. */
  predicate FailsBetween(labels: seq<Label>, w: nat, i: nat, n: nat)
    requires n <= |labels|
  {
    exists k :: i < k < n && labels[k].Work? && labels[k].w == w && IsFailedSend(labels[k].a)
  }

  /** How many jobs worker `w` settled at labels from `i` on and before `n`. */
  function SettledBetween(labels: seq<Label>, w: nat, i: nat, n: nat): nat
    requires i <= n <= |labels|
    decreases n
  {
    if n == i then 0
    else SettledBetween(labels, w, i, n - 1) + if labels[n - 1] == Work(w, Settle) then 1 else 0
  }

  /** What worker `k` is, `settled` jobs after its last spawn, `failed` telling of a failed send since. */
  predicate ShareOk(c: Config, k: Worker, settled: nat, failed: bool) {
    (k.proc.Some? ==>
       k.served == settled &&
       (failed <==> (k.phase.Answered? || k.phase.Deleted?) && !k.phase.ok)) &&
    (k.proc.None? ==> failed || k.phase.Exited? || 0 < c.maxJobs == settled)
  }

  predicate IsFailedSend(a: Action) {
    a.WriteFail? || a.Broken? || a.Expire?
  }

  lemma {:induction false} ShareMoves(c: Config, clock: nat, chans: Channels, pipes: Pipes, k: Worker, a: Action,
                                      settled: nat, failed: bool)
    requires ActionEnabled(c, chans, pipes, k, a) && Paired(c, pipes, k) && ShareOk(c, k, settled, failed)
    requires !a.Spawn?
    ensures ShareOk(c, Moved(c, clock, chans, pipes, k, a), if a.Settle? then settled + 1 else settled,
                    failed || IsFailedSend(a))
  {
  }

  lemma {:induction false} FailsMore(labels: seq<Label>, w: nat, i: nat, n: nat)
    requires i < n < |labels|
    ensures FailsBetween(labels, w, i, n + 1) ==
            (FailsBetween(labels, w, i, n) || (labels[n].Work? && labels[n].w == w && IsFailedSend(labels[n].a)))
  {
  }

  lemma {:induction false} ShareLabel(c: Config, s: Pool, l: Label, w: nat, settled: nat, failed: bool)
    requires PairingOk(c, s.workers, s.pipes) && Enabled(c, s, l) && w < |s.workers|
    requires !(l.Work? && l.w == w && l.a.Spawn?) && ShareOk(c, s.workers[w], settled, failed)
    ensures w < |Apply(c, s, l).workers|
    ensures ShareOk(c, Apply(c, s, l).workers[w], settled + if l == Work(w, Settle) then 1 else 0,
                    failed || (l.Work? && l.w == w && IsFailedSend(l.a)))
  {
    if l.Work? && l.w == w {
      assert Paired(c, s.pipes, s.workers[w]);
      ShareMoves(c, s.clock, s.chans, s.pipes, s.workers[w], l.a, settled, failed);
    }
  }

  ghost predicate ShareAt(c: Config, labels: seq<Label>, workers: seq<Worker>, w: nat, i: nat, n: nat)
    requires i < n <= |labels|
  {
    w < |workers| && ShareOk(c, workers[w], SettledBetween(labels, w, i + 1, n), FailsBetween(labels, w, i, n))
  }

  lemma {:induction false} ShareStarts(c: Config, s: Pool, w: nat, a: Action)
    requires Enabled(c, s, Work(w, a)) && a.Spawn?
    ensures w < |Apply(c, s, Work(w, a)).workers|
    ensures ShareOk(c, Apply(c, s, Work(w, a)).workers[w], 0, false)
  {
  }

  lemma {:induction false} ShareStep(c: Config, labels: seq<Label>, states: seq<Pool>, w: nat, i: nat, n: nat)
    requires Traced(c, labels, states) && i < n < |labels| && !SpawnsAt(labels, w, n)
    requires ShareAt(c, labels, states[n].workers, w, i, n)
    ensures ShareAt(c, labels, states[n + 1].workers, w, i, n + 1)
  {
    TracedStep(c, labels, states, n);
    TracedInv(c, labels, states, n);
    FailsMore(labels, w, i, n);
    ShareLabel(c, states[n], labels[n], w, SettledBetween(labels, w, i + 1, n), FailsBetween(labels, w, i, n));
  }

  lemma {:induction false} ShareHolds(c: Config, labels: seq<Label>, states: seq<Pool>, w: nat, i: nat, n: nat)
    requires Traced(c, labels, states) && i < n <= |labels| && SpawnsAt(labels, w, i)
    requires forall k :: i < k < n ==> !SpawnsAt(labels, w, k)
    ensures ShareAt(c, labels, states[n].workers, w, i, n)
  {
    if n == i + 1 {
      TracedStep(c, labels, states, i);
      ShareStarts(c, states[i], w, labels[i].a);
    } else {
      ShareHolds(c, labels, states, w, i, n - 1);
      ShareStep(c, labels, states, w, i, n - 1);
    }
  }

  /** A worker replaces its subprocess only after a failed send, or after exactly the limit of jobs. */
  lemma {:induction false} ReplacedWhenDue(c: Config, labels: seq<Label>, states: seq<Pool>, w: nat, i: nat, n: nat)
    requires Traced(c, labels, states) && i < n && SpawnsAt(labels, w, i) && SpawnsAt(labels, w, n)
    requires forall k :: i < k < n ==> !SpawnsAt(labels, w, k)
    ensures FailsBetween(labels, w, i, n) || 0 < c.maxJobs == SettledBetween(labels, w, i + 1, n)
  {
    ShareHolds(c, labels, states, w, i, n);
    TracedStep(c, labels, states, n);
  }

  // ---------------------------------------------------------------- stamps and the abort

  /** Job `j` was stamped with the clock by the worker busy with it. */
  predicate StampedAt(labels: seq<Label>, states: seq<Pool>, i: nat, j: JobId, at: nat) {
    i < |labels| < |states| && labels[i].Work? && labels[i].a.Stamp? && BusyWith(states[i], labels[i].w, j) &&
    states[i].clock == at
  }

  ghost predicate WasStamped(labels: seq<Label>, states: seq<Pool>, n: nat, j: JobId, at: nat) {
    exists i: nat :: i < n && StampedAt(labels, states, i, j, at)
  }

  ghost predicate StampsOk(labels: seq<Label>, states: seq<Pool>, n: nat)
    requires n < |states|
  {
    (forall w: nat :: w < |states[n].workers| && states[n].workers[w].phase.Stamped? ==>
       WasStamped(labels, states, n, states[n].workers[w].phase.job, states[n].workers[w].phase.at)) &&
    forall j :: j in states[n].flight.inflight ==> WasStamped(labels, states, n, j, states[n].flight.inflight[j])
  }

  lemma {:induction false} StampedLater(labels: seq<Label>, states: seq<Pool>, n: nat, j: JobId, at: nat)
    requires WasStamped(labels, states, n, j, at)
    ensures WasStamped(labels, states, n + 1, j, at)
  {
  }

  lemma {:induction false} StampsStep(c: Config, labels: seq<Label>, states: seq<Pool>, n: nat)
    requires Traced(c, labels, states) && n < |labels| && StampsOk(labels, states, n)
    ensures StampsOk(labels, states, n + 1)
  {
    TracedStep(c, labels, states, n);
    var s, t, l := states[n], states[n + 1], labels[n];
    forall w: nat | w < |t.workers| && t.workers[w].phase.Stamped?
      ensures WasStamped(labels, states, n + 1, t.workers[w].phase.job, t.workers[w].phase.at)
    {
      if l == Work(w, Stamp) {
        assert StampedAt(labels, states, n, t.workers[w].phase.job, t.workers[w].phase.at);
      } else {
        assert t.workers[w] == s.workers[w];
        StampedLater(labels, states, n, t.workers[w].phase.job, t.workers[w].phase.at);
      }
    }
    forall j | j in t.flight.inflight ensures WasStamped(labels, states, n + 1, j, t.flight.inflight[j]) {
      StampedLater(labels, states, n, j, t.flight.inflight[j]);
    }
  }

  /** The in-flight map holds for each job the clock at which its worker stamped it. */
  lemma {:induction false} StampsAreClocks(c: Config, labels: seq<Label>, states: seq<Pool>, n: nat)
    requires Traced(c, labels, states) && n <= |labels|
    ensures StampsOk(labels, states, n)
  {
    if n > 0 {
      StampsAreClocks(c, labels, states, n - 1);
      StampsStep(c, labels, states, n - 1);
    }
  }

  /** Once the run is aborted the feeder may stop, and then hands out nothing more. */
  lemma {:induction false} AbortStopsFeeding(c: Config, s: Pool, labels: seq<Label>, t: Pool)
    requires c.abortable && s.aborted && s.chans.feeder.Feeding? && s.chans.fed < |c.todo|
    ensures Enabled(c, s, Feeder(FeedAbort))
    ensures Runs(c, Apply(c, s, Feeder(FeedAbort)), labels, t) ==> t.chans.fed == s.chans.fed
  {
    if Runs(c, Apply(c, s, Feeder(FeedAbort)), labels, t) { NotFeeding(c, Apply(c, s, Feeder(FeedAbort)), labels, t); }
  }

  lemma {:induction false} NotFeeding(c: Config, s: Pool, labels: seq<Label>, t: Pool)
    requires !s.chans.feeder.Feeding? && Runs(c, s, labels, t)
    ensures t.chans.fed == s.chans.fed
    decreases |labels|
  {
    if labels != [] { NotFeeding(c, Apply(c, s, labels[0]), labels[1..], t); }
  }
}
