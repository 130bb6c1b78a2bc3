/** Executions from the empty store that reach the situations in which the durable job
    protocol does not do what one would expect of it. */
module Executions {
  import opened Wrappers
  import opened Records
  import opened Hashing
  import opened EventChain
  import opened Persistence
  import opened Worker
  import Signer
  import Q = JobQueue

  /** A trace of steps from the empty store. */
  ghost predicate Execution(h: Hasher, states: seq<State>, ops: seq<Op>) {
    Trace(h, states, ops) && states[0] == Init()
  }

  function Last(states: seq<State>): State
    requires states != []
  {
    states[|states| - 1]
  }

  lemma ExecutionLength(h: Hasher, states: seq<State>, ops: seq<Op>)
    requires Execution(h, states, ops)
    ensures |states| == |ops| + 1
  {}

  lemma Do(h: Hasher, states: seq<State>, ops: seq<Op>, op: Op) returns (states': seq<State>, ops': seq<Op>)
    requires Execution(h, states, ops) && Allowed(Last(states), op)
    ensures |states| == |ops| + 1 && |states'| == |ops'| + 1
    ensures Execution(h, states', ops') && states' == states + [Next(h, Last(states), op)] && ops' == ops + [op]
  {
    hide Next, Allowed;
    states', ops' := states + [Next(h, Last(states), op)], ops + [op];
    forall i | 0 <= i < |ops'| ensures Allowed(states'[i], ops'[i]) && states'[i + 1] == Next(h, states'[i], ops'[i]) {
      if i < |ops| { assert Allowed(states[i], ops[i]) && states[i + 1] == Next(h, states[i], ops[i]); }
    }
  }

  // ---- Single steps on a store that holds one run ----

  /** The store holds the run row, and one evaluation job with its payload. */
  ghost predicate OneJob(s: State, row: RunRow, initial: StoredRun, job: Q.Job, issued: set<Q.Lease>) {
    && s.runs == map[initial.id := row] && s.jobs == Q.Queue(map[initial.id := job], issued)
    && s.initial == map[initial.id := initial] && s.signing == Q.Queue(map[], {})
  }

  function Claiming(id: Id, worker: string, token: string, leaseMs: int): Op {
    ClaimRun(worker, token, leaseMs, {}, Some(id))
  }

  lemma RowForRevision(run: StoredRun)
    ensures RowFor(run).revision == |run.events|
  {}

  lemma JobFacts(s: State, row: RunRow, initial: StoredRun, job: Q.Job, issued: set<Q.Lease>)
    requires OneJob(s, row, initial, job, issued)
    ensures s.runs == map[initial.id := row] && s.initial == map[initial.id := initial]
    ensures Q.Claimable(s.jobs.rows, initial.id, s.now) <==>
              && job.attempts < Q.MAX_ATTEMPTS
              && ((job.status == Q.Queued && job.availableAt <= s.now) || Q.Expired(job, s.now))
  {}

  lemma OneJobLater(s: State, row: RunRow, initial: StoredRun, job: Q.Job, issued: set<Q.Lease>, millis: nat)
    requires OneJob(s, row, initial, job, issued)
    ensures OneJob(s.(now := s.now + millis), row, initial, job, issued)
  {}

  lemma SweepIsIdle(h: Hasher, s: State, row: RunRow, initial: StoredRun, job: Q.Job, issued: set<Q.Lease>)
    requires OneJob(s, row, initial, job, issued) && job.attempts < Q.MAX_ATTEMPTS
    ensures Allowed(s, FailExhausted) && Next(h, s, FailExhausted) == s
  {
    var t := Next(h, s, FailExhausted);
    assert t.jobs.rows == s.jobs.rows && t.runs == s.runs;
  }

  lemma ClaimStep(h: Hasher, s: State, row: RunRow, initial: StoredRun, job: Q.Job, issued: set<Q.Lease>, op: Op)
    requires OneJob(s, row, initial, job, issued) && Q.Claimable(s.jobs.rows, initial.id, s.now)
    requires op.ClaimRun? && op.skipped == {} && op.pick == Some(initial.id)
    requires forall m :: m in issued ==> m.token != op.token
    ensures var l := Q.Lease(initial.id, op.workerId, op.token, op.leaseMs, job.attempts + 1);
            && Allowed(s, op) && Next(h, s, op).now == s.now
            && OneJob(Next(h, s, op), row, initial, Q.Taken(job, op.workerId, op.token, op.leaseMs, s.now),
                      issued + {l})
            && (job.attempts >= 1 ==> Reclaims(s, op, l))
  {}

  lemma TickStep(h: Hasher, s: State, millis: nat)
    ensures Allowed(s, Tick(millis)) && Next(h, s, Tick(millis)) == s.(now := s.now + millis)
  {}

  lemma SaveStep(
    h: Hasher, s: State, row: RunRow, initial: StoredRun, job: Q.Job, issued: set<Q.Lease>, run: StoredRun, l: Q.Lease)
    requires OneJob(s, row, initial, job, issued) && run.id == initial.id == l.id
    requires job.status == Q.Running && job.token == Some(l.token) && job.workerId == Some(l.workerId)
    requires job.lockedUntil.Some? && job.lockedUntil.value > s.now
    ensures Allowed(s, SaveLeased(run, l)) && Q.Current(s.jobs.rows, l, s.now)
    ensures LeasedApplies(s, run, l) <==> row.revision <= |run.events|
    ensures Next(h, s, SaveLeased(run, l)).now == s.now
    ensures var row' := if row.revision <= |run.events| then RowFor(run) else row;
            OneJob(Next(h, s, SaveLeased(run, l)), row', initial, job, issued)
  {}

  lemma EmptyQueueHasRoom(s: State)
    requires s.jobs.rows == map[]
    ensures HasCapacity(s, 100)
  {
    assert (set id | id in s.jobs.rows && Q.Live(s.jobs.rows, id)) == {};
  }

  lemma EnqueueStep(h: Hasher, s: State, run: StoredRun)
    requires s.jobs == Q.Queue(map[], {}) && s.signing == Q.Queue(map[], {}) && s.initial == map[]
             && s.runs.Keys <= {run.id}
    ensures Allowed(s, EnqueueRun(run, 100)) && Next(h, s, EnqueueRun(run, 100)).now == s.now
    ensures var row := if run.id in s.runs then s.runs[run.id] else RowFor(run);
            OneJob(Next(h, s, EnqueueRun(run, 100)), row, run, Q.NewJob(s.now), {})
  {
    hide HasCapacity;
    EmptyQueueHasRoom(s);
    var t := Next(h, s, EnqueueRun(run, 100));
    assert t.runs == map[run.id := if run.id in s.runs then s.runs[run.id] else RowFor(run)];
  }

  /** claimRun, both statements, and the lease that it returns. */
  lemma Claim(
    h: Hasher, states: seq<State>, ops: seq<Op>, row: RunRow, initial: StoredRun, job: Q.Job, issued: set<Q.Lease>,
    worker: string, token: string, leaseMs: int)
    returns (states': seq<State>, ops': seq<Op>, job': Q.Job, l: Q.Lease)
    requires Execution(h, states, ops) && OneJob(Last(states), row, initial, job, issued)
             && job.attempts < Q.MAX_ATTEMPTS
    requires Q.Claimable(Last(states).jobs.rows, initial.id, Last(states).now)
    requires forall m :: m in issued ==> m.token != token
    ensures |states| == |ops| + 1 && |states'| == |ops'| + 1
    ensures Execution(h, states', ops') && |ops'| == |ops| + 2 && states <= states' && ops <= ops'
    ensures l == Q.Lease(initial.id, worker, token, leaseMs, job.attempts + 1)
    ensures job' == Q.Taken(job, worker, token, leaseMs, Last(states).now)
    ensures ops'[|ops|] == FailExhausted && ops'[|ops| + 1] == Claiming(initial.id, worker, token, leaseMs)
    ensures OneJob(Last(states'), row, initial, job', issued + {l}) && Last(states').now == Last(states).now
    ensures states'[|ops| + 1] == Last(states) && (job.attempts >= 1 ==> Reclaims(Last(states), ops'[|ops| + 1], l))
  {
    hide Next, Allowed, Q.Claimable, Reclaims, Trace, OneJob;
    ExecutionLength(h, states, ops);
    SweepIsIdle(h, Last(states), row, initial, job, issued);
    states', ops' := Do(h, states, ops, FailExhausted);
    var claim := Claiming(initial.id, worker, token, leaseMs);
    ClaimStep(h, Last(states'), row, initial, job, issued, claim);
    states', ops' := Do(h, states', ops', claim);
    job' := Q.Taken(job, worker, token, leaseMs, Last(states).now);
    l := Q.Lease(initial.id, worker, token, leaseMs, job.attempts + 1);
  }

  // ---- Lease recovery that fails ----

  /** A first attempt at an enqueued run: it stores a longer, unfinished log, and its
      lease runs out. */
  lemma UnfinishedFirstAttempt(h: Hasher, created: StoredRun, partial: StoredRun, w: string, t: string, leaseMs: nat)
    returns (states: seq<State>, ops: seq<Op>, job: Q.Job, l: Q.Lease)
    requires partial.id == created.id && |created.events| <= |partial.events| && leaseMs > 0
    ensures |states| == |ops| + 1 && Execution(h, states, ops) && l == Q.Lease(created.id, w, t, leaseMs, 1)
    ensures OneJob(Last(states), RowFor(partial), created, job, {} + {l}) && Last(states).now == leaseMs + 1
    ensures job == Q.Taken(Q.NewJob(0), w, t, leaseMs, 0)
  {
    hide Next, Allowed, Execution, Q.Current, LeasedApplies, OneJob, Q.Claimable, RowFor;
    RowForRevision(created);
    states, ops := [Init()], [];
    StartsExecution(h);
    EnqueueStep(h, Init(), created);
    states, ops := Do(h, states, ops, EnqueueRun(created, 100));
    JobFacts(Last(states), RowFor(created), created, Q.NewJob(0), {});
    states, ops, job, l := Claim(h, states, ops, RowFor(created), created, Q.NewJob(0), {}, w, t, leaseMs);
    var issued: set<Q.Lease> := {} + {l};
    SaveStep(h, Last(states), RowFor(created), created, job, issued, partial, l);
    states, ops := Do(h, states, ops, SaveLeased(partial, l));
    OneJobLater(Last(states), RowFor(partial), created, job, issued, leaseMs + 1);
    TickStep(h, Last(states), leaseMs + 1);
    states, ops := Do(h, states, ops, Tick(leaseMs + 1));
  }

  /** An enqueued run of one event; a first attempt that stores a longer, unfinished log
      and loses its lease; a second attempt whose first checkpoint is refused although
      its lease is current. Its finish fails the job, and the unfinished run stays. */
  lemma RecoveryCanFail(
    h: Hasher, created: StoredRun, partial: StoredRun, w1: string, w2: string, t1: string, t2: string, leaseMs: nat,
    at: string, message: string)
    returns (states: seq<State>, ops: seq<Op>, claim: nat, l: Q.Lease)
    requires |created.events| == 1 && partial.id == created.id && |partial.events| >= 3 && !Terminal(partial.state)
    requires leaseMs > 0 && t1 != t2 && message != ""
    ensures Execution(h, states, ops) && |states| == |ops| + 1 && claim + 3 == |ops|
    ensures l.id == created.id && Reclaims(states[claim], ops[claim], l) && created.id in states[claim].initial
            && created.id in states[claim].runs
    ensures !Resumable(states[claim], created.id) && Replays(h, states, ops, claim, l)
    ensures var first := Recovered(h, created, l.attempt, at);
            && ops[claim + 1] == SaveLeased(first, l)
            && Q.Current(states[claim + 1].jobs.rows, l, states[claim + 1].now)
            && !LeasedApplies(states[claim + 1], first, l)
    ensures created.id in states[|ops|].jobs.rows && states[|ops|].jobs.rows[created.id].status == Q.Failed
    ensures created.id in states[|ops|].runs && states[|ops|].runs[created.id] == RowFor(partial)
  {
    hide Next, Allowed, Execution, Reclaims, Q.Current, LeasedApplies, Sealed, OneJob, Q.Live, Q.Claimable, RowFor,
         Terminal;
    RowForRevision(partial);
    var job, l1;
    states, ops, job, l1 := UnfinishedFirstAttempt(h, created, partial, w1, t1, leaseMs);
    var i1: set<Q.Lease> := {} + {l1};
    JobFacts(Last(states), RowFor(partial), created, job, i1);
    claim := |ops| + 1;
    states, ops, job, l := Claim(h, states, ops, RowFor(partial), created, job, i1, w2, t2, leaseMs);
    var i2 := i1 + {l};
    JobFacts(Last(states), RowFor(partial), created, job, i2);
    var first := Recovered(h, created, l.attempt, at);
    SaveStep(h, Last(states), RowFor(partial), created, job, i2, first, l);
    states, ops := Do(h, states, ops, SaveLeased(first, l));
    SaveStep(h, Last(states), RowFor(partial), created, job, i2, first, l);
    JobFacts(Last(states), RowFor(partial), created, job, i2);
    FinishedJob(h, Last(states), l, Some(message));
    FinishAllowed(Last(states), l, message);
    states, ops := Do(h, states, ops, FinishRun(l, Some(message)));
    OneSaveReplays(h, states, ops, claim, l, at);
  }

  lemma OneSaveReplays(h: Hasher, states: seq<State>, ops: seq<Op>, claim: nat, l: Q.Lease, at: string)
    requires claim + 3 == |ops| && |ops| <= |states| && l.id in states[claim].initial
    requires ops[claim + 1] == SaveLeased(Recovered(h, states[claim].initial[l.id], l.attempt, at), l)
             && ops[claim + 2].FinishRun?
    ensures Replays(h, states, ops, claim, l)
  {
    hide Recovered, LeasedApplies;
  }

  lemma StartsExecution(h: Hasher)
    ensures Execution(h, [Init()], [])
  {}

  lemma FinishAllowed(s: State, l: Q.Lease, message: string)
    ensures Allowed(s, FinishRun(l, Some(message)))
  {}

  // ---- A cancellation that is undone ----

  /** A run is saved and cancelled before its enqueue reaches the database. The late
      enqueue finds the CANCELLED row, but queues the job; its second attempt restarts
      from the enqueued run and carries the row back to CREATED. */
  lemma CancellationCanBeUndone(
    h: Hasher, created: StoredRun, w1: string, w2: string, t1: string, t2: string, leaseMs: nat, at: string)
    returns (states: seq<State>, ops: seq<Op>)
    requires |created.events| == 1 && !Terminal(created.state) && leaseMs > 0 && t1 != t2
    ensures Execution(h, states, ops) && |states| > 3
    ensures ops[0] == SaveRun(created) && ops[1] == CancelDurably(created.id, created.cancelTokenHash, at)
    ensures Final(states[2], created.id) && ops[2] == EnqueueRun(created, 100)
    ensures created.id in Last(states).runs && Last(states).runs[created.id].state == CREATED
  {
    hide Next, Allowed, Execution, Reclaims, Q.Current, LeasedApplies, Sealed;
    states, ops := [Init()], [];
    StartsExecution(h);
    var cancelled := CancelledRun(h, created, at);
    FirstSaveStep(h, created);
    states, ops := Do(h, states, ops, SaveRun(created));
    CancelStep(h, Last(states), created, at);
    states, ops := Do(h, states, ops, CancelDurably(created.id, created.cancelTokenHash, at));
    EnqueueStep(h, Last(states), created);
    states, ops := Do(h, states, ops, EnqueueRun(created, 100));
    var job, l1, l2;
    states, ops, job, l1 := Claim(h, states, ops, RowFor(cancelled), created, Q.NewJob(0), {}, w1, t1, leaseMs);
    TickStep(h, Last(states), leaseMs + 1);
    states, ops := Do(h, states, ops, Tick(leaseMs + 1));
    states, ops, job, l2 := Claim(h, states, ops, RowFor(cancelled), created, job, {l1}, w2, t2, leaseMs);
    var first := Recovered(h, created, l2.attempt, at);
    SaveStep(h, Last(states), RowFor(cancelled), created, job, {l1} + {l2}, first, l2);
    states, ops := Do(h, states, ops, SaveLeased(first, l2));
  }

  lemma FirstSaveStep(h: Hasher, run: StoredRun)
    ensures Allowed(Init(), SaveRun(run))
    ensures Next(h, Init(), SaveRun(run)) == Init().(runs := map[run.id := RowFor(run)])
  {}

  lemma CancelStep(h: Hasher, s: State, run: StoredRun, at: string)
    requires s == Init().(runs := map[run.id := RowFor(run)]) && !Terminal(run.state)
    ensures var op := CancelDurably(run.id, run.cancelTokenHash, at);
            && Allowed(s, op) && Final(Next(h, s, op), run.id)
            && Next(h, s, op) == s.(runs := map[run.id := RowFor(CancelledRun(h, run, at))])
  {
    hide Sealed;
  }

  // ---- Signing jobs ----

  /** The store holds a run and its signing job; its evaluation job may be anything. */
  ghost predicate OneSigningJob(s: State, row: RunRow, id: Id, job: Q.Job, issued: set<Q.Lease>) {
    s.runs == map[id := row] && s.signing == Q.Queue(map[id := job], issued)
  }

  lemma StageStep(
    h: Hasher, s: State, row: RunRow, initial: StoredRun, job: Q.Job, issued: set<Q.Lease>, run: StoredRun)
    requires OneJob(s, row, initial, job, issued) && run.id == initial.id
    ensures Allowed(s, StageSigning(run)) && Next(h, s, StageSigning(run)).now == s.now
    ensures OneJob(Next(h, s, StageSigning(run)), RowFor(run), initial, job, issued)
  {}

  lemma SigningEnqueueStep(
    h: Hasher, s: State, row: RunRow, initial: StoredRun, job: Q.Job, issued: set<Q.Lease>)
    requires OneJob(s, row, initial, job, issued)
    ensures Allowed(s, EnqueueSigning(initial.id)) && Next(h, s, EnqueueSigning(initial.id)).now == s.now
    ensures OneSigningJob(Next(h, s, EnqueueSigning(initial.id)), row, initial.id, Q.NewJob(s.now), {})
  {}

  lemma LateFinishStep(h: Hasher, s: State, row: RunRow, job: Q.Job, issued: set<Q.Lease>, l: Q.Lease)
    requires OneSigningJob(s, row, l.id, job, issued) && job.lockedUntil.Some? && job.lockedUntil.value <= s.now
    ensures Allowed(s, FinishSigning(l, None)) && Next(h, s, FinishSigning(l, None)) == s
  {}

  lemma SigningClaimStep(
    h: Hasher, s: State, row: RunRow, id: Id, job: Q.Job, issued: set<Q.Lease>, worker: string, token: string,
    leaseMs: int)
    requires OneSigningJob(s, row, id, job, issued) && Q.Claimable(s.signing.rows, id, s.now)
    requires forall m :: m in issued ==> m.token != token
    ensures var op := ClaimSigning(worker, token, leaseMs, {}, Some(id));
            var l := Q.Lease(id, worker, token, leaseMs, job.attempts + 1);
            && Allowed(s, op) && Next(h, s, op).now == s.now
            && OneSigningJob(Next(h, s, op), row, id, Q.Taken(job, worker, token, leaseMs, s.now), issued + {l})
  {}

  lemma SigningSaveStep(
    h: Hasher, s: State, row: RunRow, job: Q.Job, issued: set<Q.Lease>, run: StoredRun, l: Q.Lease)
    requires OneSigningJob(s, row, run.id, job, issued) && run.id == l.id
    requires job.status == Q.Running && job.token == Some(l.token) && job.workerId == Some(l.workerId)
    requires job.lockedUntil.Some? && job.lockedUntil.value > s.now
    ensures Allowed(s, SaveSigned(run, l)) && Next(h, s, SaveSigned(run, l)).now == s.now
    ensures OneSigningJob(Next(h, s, SaveSigned(run, l)), RowFor(run), run.id, job, issued)
  {}

  lemma SigningFacts(s: State, row: RunRow, id: Id, job: Q.Job, issued: set<Q.Lease>)
    requires OneSigningJob(s, row, id, job, issued)
    ensures s.runs == map[id := row] && id in s.signing.rows && s.signing.rows[id] == job
    ensures Q.Claimable(s.signing.rows, id, s.now) <==>
              && job.attempts < Q.MAX_ATTEMPTS
              && ((job.status == Q.Queued && job.availableAt <= s.now) || Q.Expired(job, s.now))
  {}

  lemma OneSigningJobLater(s: State, row: RunRow, id: Id, job: Q.Job, issued: set<Q.Lease>, millis: nat)
    requires OneSigningJob(s, row, id, job, issued)
    ensures OneSigningJob(s.(now := s.now + millis), row, id, job, issued)
  {}

  /** An attempt claims the enqueued run, and hands its unsigned result to the signer. */
  lemma HandedToSigner(h: Hasher, created: StoredRun, staged: StoredRun, w: string, t: string, leaseMs: nat)
    returns (states: seq<State>, ops: seq<Op>)
    requires staged.id == created.id
    ensures |ops| == 5 && |states| == 6 && Execution(h, states, ops)
    ensures ops[0] == EnqueueRun(created, 100) && ops[2] == Claiming(created.id, w, t, leaseMs)
    ensures ops[3] == StageSigning(staged) && ops[4] == EnqueueSigning(created.id)
    ensures OneSigningJob(Last(states), RowFor(staged), staged.id, Q.NewJob(0), {}) && Last(states).now == 0
  {
    hide Next, Allowed, Execution, OneJob, OneSigningJob, Q.Claimable, RowFor;
    states, ops := [Init()], [];
    StartsExecution(h);
    EnqueueStep(h, Init(), created);
    states, ops := Do(h, states, ops, EnqueueRun(created, 100));
    JobFacts(Last(states), RowFor(created), created, Q.NewJob(0), {});
    var job, l;
    states, ops, job, l := Claim(h, states, ops, RowFor(created), created, Q.NewJob(0), {}, w, t, leaseMs);
    var issued: set<Q.Lease> := {} + {l};
    StageStep(h, Last(states), RowFor(created), created, job, issued, staged);
    states, ops := Do(h, states, ops, StageSigning(staged));
    SigningEnqueueStep(h, Last(states), RowFor(staged), created, job, issued);
    states, ops := Do(h, states, ops, EnqueueSigning(created.id));
  }

  lemma SigningClaim(
    h: Hasher, states: seq<State>, ops: seq<Op>, row: RunRow, id: Id, job: Q.Job, issued: set<Q.Lease>,
    worker: string, token: string, leaseMs: nat)
    returns (states': seq<State>, ops': seq<Op>, job': Q.Job, l: Q.Lease)
    requires Execution(h, states, ops) && |states| == |ops| + 1 && OneSigningJob(Last(states), row, id, job, issued)
    requires Q.Claimable(Last(states).signing.rows, id, Last(states).now)
    requires forall m :: m in issued ==> m.token != token
    ensures Execution(h, states', ops') && |states'| == |ops'| + 1
    ensures |ops'| == |ops| + 1 && states <= states' && ops <= ops'
    ensures l == Q.Lease(id, worker, token, leaseMs, job.attempts + 1)
    ensures job' == Q.Taken(job, worker, token, leaseMs, Last(states).now)
    ensures OneSigningJob(Last(states'), row, id, job', issued + {l}) && Last(states').now == Last(states).now
  {
    hide Next, Allowed, Execution, OneSigningJob, Q.Claimable;
    SigningClaimStep(h, Last(states), row, id, job, issued, worker, token, leaseMs);
    states', ops' := Do(h, states, ops, ClaimSigning(worker, token, leaseMs, {}, Some(id)));
    job' := Q.Taken(job, worker, token, leaseMs, Last(states).now);
    l := Q.Lease(id, worker, token, leaseMs, job.attempts + 1);
  }

  lemma SigningPause(
    h: Hasher, states: seq<State>, ops: seq<Op>, row: RunRow, id: Id, job: Q.Job, issued: set<Q.Lease>, millis: nat)
    returns (states': seq<State>, ops': seq<Op>)
    requires Execution(h, states, ops) && |states| == |ops| + 1 && OneSigningJob(Last(states), row, id, job, issued)
    ensures Execution(h, states', ops') && |states'| == |ops'| + 1
    ensures |ops'| == |ops| + 1 && states <= states' && ops <= ops'
    ensures OneSigningJob(Last(states'), row, id, job, issued) && Last(states').now == Last(states).now + millis
  {
    hide Next, Allowed, Execution, OneSigningJob;
    OneSigningJobLater(Last(states), row, id, job, issued, millis);
    TickStep(h, Last(states), millis);
    states', ops' := Do(h, states, ops, Tick(millis));
  }

  // ---- A signed run that is overwritten ----

  const NO_PAYLOAD := "Unsigned finalization payload is missing."

  /** The run as a signer completes it. */
  function Completed(
    h: Hasher, staged: StoredRun, me: Signer.Identity, score: Score, at: string, parts: Json): StoredRun
  {
    staged.(state := COMPLETED, events := Signer.SignedEvents(h, me, staged.events, score, at), other := parts)
  }

  /** The completed run as the next signer rejects it. */
  function Rejected(h: Hasher, completed: StoredRun, at: string, parts: Json): StoredRun {
    completed.(state := FAILED, error := Some(NO_PAYLOAD), other := parts,
               events := completed.events + [Sealed(h, completed.events, Signer.RejectedInput(at, NO_PAYLOAD))])
  }

  /** The first signer's part: it claims the job and saves the completed run, and its
      lease runs out. */
  lemma SavedAndExpired(
    h: Hasher, created: StoredRun, staged: StoredRun, completed: StoredRun, w: string, w1: string, t: string,
    t1: string, leaseMs: nat)
    returns (states: seq<State>, ops: seq<Op>, job: Q.Job, l: Q.Lease)
    requires created.id == staged.id == completed.id && leaseMs > 0
    ensures |ops| == 8 && |states| == 9 && Execution(h, states, ops) && l == Q.Lease(created.id, w1, t1, leaseMs, 1)
    ensures ops[0] == EnqueueRun(created, 100) && ops[2] == Claiming(created.id, w, t, leaseMs)
    ensures ops[3] == StageSigning(staged) && ops[4] == EnqueueSigning(created.id) && ops[6] == SaveSigned(completed, l)
    ensures states[7].runs == map[created.id := RowFor(completed)]
    ensures OneSigningJob(Last(states), RowFor(completed), created.id, job, {} + {l}) && Last(states).now == leaseMs + 1
    ensures job == Q.Taken(Q.NewJob(0), w1, t1, leaseMs, 0)
  {
    hide Next, Allowed, Execution, OneSigningJob, Q.Claimable, RowFor;
    states, ops := HandedToSigner(h, created, staged, w, t, leaseMs);
    SigningFacts(Last(states), RowFor(staged), created.id, Q.NewJob(0), {});
    states, ops, job, l := SigningClaim(h, states, ops, RowFor(staged), created.id, Q.NewJob(0), {}, w1, t1, leaseMs);
    var issued: set<Q.Lease> := {} + {l};
    SigningSaveStep(h, Last(states), RowFor(staged), job, issued, completed, l);
    states, ops := Do(h, states, ops, SaveSigned(completed, l));
    SigningFacts(Last(states), RowFor(completed), created.id, job, issued);
    states, ops := SigningPause(h, states, ops, RowFor(completed), created.id, job, issued, leaseMs + 1);
  }

  /** A worker hands its result to the signer. The first signer saves the completed run
      but loses its lease before its finish; the next one finds no pending payload in the
      completed run, rejects it, and overwrites it as failed. */
  lemma SignedRunCanBeOverwritten(
    h: Hasher, created: StoredRun, staged: StoredRun, me: Signer.Identity, score: Score, at: string, parts: Json,
    failedParts: Json, w: string, t: string, t1: string, t2: string, leaseMs: nat)
    returns (states: seq<State>, ops: seq<Op>)
    requires created.id == staged.id && staged.state == SCORING && leaseMs > 0 && t1 != t2
    ensures Execution(h, states, ops) && |ops| == 11 && |states| == 12
    ensures var completed := Completed(h, staged, me, score, at, parts);
            var rejected := Rejected(h, completed, at, failedParts);
            var l1, l2 := Q.Lease(created.id, w, t1, leaseMs, 1), Q.Lease(created.id, w, t2, leaseMs, 2);
            && ops[0] == EnqueueRun(created, 100) && ops[2] == Claiming(created.id, w, t, leaseMs)
            && ops[3] == StageSigning(staged) && ops[4] == EnqueueSigning(created.id)
            && ops[6] == SaveSigned(completed, l1) && states[7].runs == map[created.id := RowFor(completed)]
            && ops[8] == FinishSigning(l1, None) && states[9] == states[8]
            && ops[10] == SaveSigned(rejected, l2) && states[11].runs == map[created.id := RowFor(rejected)]
  {
    hide Next, Allowed, Execution, OneSigningJob, Q.Claimable, RowFor, Completed, Rejected;
    var completed := Completed(h, staged, me, score, at, parts);
    var rejected := Rejected(h, completed, at, failedParts);
    SameIds(h, staged, me, score, at, parts, failedParts);
    var job, l1;
    states, ops, job, l1 := SavedAndExpired(h, created, staged, completed, w, w, t, t1, leaseMs);
    var issued: set<Q.Lease> := {} + {l1};
    LateFinishStep(h, Last(states), RowFor(completed), job, issued, l1);
    states, ops := Do(h, states, ops, FinishSigning(l1, None));
    SigningFacts(Last(states), RowFor(completed), created.id, job, issued);
    var again, l2;
    states, ops, again, l2 := SigningClaim(h, states, ops, RowFor(completed), created.id, job, issued, w, t2, leaseMs);
    SigningSaveStep(h, Last(states), RowFor(completed), again, issued + {l2}, rejected, l2);
    states, ops := Do(h, states, ops, SaveSigned(rejected, l2));
    SigningFacts(Last(states), RowFor(rejected), created.id, again, issued + {l2});
  }

  lemma SameIds(
    h: Hasher, staged: StoredRun, me: Signer.Identity, score: Score, at: string, parts: Json, failedParts: Json)
    ensures Completed(h, staged, me, score, at, parts).id == staged.id
    ensures Rejected(h, Completed(h, staged, me, score, at, parts), at, failedParts).id == staged.id
  {}

  // ---- A signing job that is stuck ----

  /** A signer claims the job, and its lease runs out. */
  lemma SignerIsLost(
    h: Hasher, states: seq<State>, ops: seq<Op>, row: RunRow, id: Id, job: Q.Job, issued: set<Q.Lease>,
    worker: string, token: string, leaseMs: nat)
    returns (states': seq<State>, ops': seq<Op>, job': Q.Job, l: Q.Lease)
    requires Execution(h, states, ops) && |states| == |ops| + 1 && OneSigningJob(Last(states), row, id, job, issued)
    requires Q.Claimable(Last(states).signing.rows, id, Last(states).now)
    requires forall m :: m in issued ==> m.token != token
    ensures Execution(h, states', ops') && |states'| == |ops'| + 1
    ensures l == Q.Lease(id, worker, token, leaseMs, job.attempts + 1)
    ensures OneSigningJob(Last(states'), row, id, job', issued + {l})
    ensures job'.attempts == job.attempts + 1 && Q.Expired(job', Last(states').now)
  {
    hide Next, Allowed, Execution, OneSigningJob, Q.Claimable;
    states', ops', job', l := SigningClaim(h, states, ops, row, id, job, issued, worker, token, leaseMs);
    states', ops' := SigningPause(h, states', ops', row, id, job', issued + {l}, leaseMs + 1);
  }

  /** Three signers in turn lose their leases; from then on the job is stuck. */
  lemma SigningJobCanBeSpent(
    h: Hasher, created: StoredRun, staged: StoredRun, w: string, t: string, t1: string, t2: string, t3: string,
    leaseMs: nat)
    returns (states: seq<State>, ops: seq<Op>)
    requires created.id == staged.id && t1 != t2 && t2 != t3 && t3 != t1
    ensures |states| == |ops| + 1 && Execution(h, states, ops) && created.id in Last(states).signing.rows
    ensures Q.Exhausted(Last(states).signing.rows[created.id], Last(states).now)
  {
    hide Next, Allowed, Execution, OneSigningJob, Q.Claimable, RowFor, Q.Expired;
    var row, id := RowFor(staged), created.id;
    states, ops := HandedToSigner(h, created, staged, w, t, leaseMs);
    var job, l1, l2, l3;
    SigningFacts(Last(states), row, id, Q.NewJob(0), {});
    states, ops, job, l1 := SignerIsLost(h, states, ops, row, id, Q.NewJob(0), {}, w, t1, leaseMs);
    SigningFacts(Last(states), row, id, job, {} + {l1});
    states, ops, job, l2 := SignerIsLost(h, states, ops, row, id, job, {} + {l1}, w, t2, leaseMs);
    SigningFacts(Last(states), row, id, job, {} + {l1} + {l2});
    states, ops, job, l3 := SignerIsLost(h, states, ops, row, id, job, {} + {l1} + {l2}, w, t3, leaseMs);
    SigningFacts(Last(states), row, id, job, {} + {l1} + {l2} + {l3});
  }
}
